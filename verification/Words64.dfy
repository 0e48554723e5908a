/** Unsigned 64-bit words: the bitwise operators, digit by digit, and the fact that
    the 64 bits of a word determine it. */
module Words64 {

  function PowerOfTwo(exponent: nat): (power: nat)
    ensures power > 0
  {
    if exponent == 0 then 1 else 2 * PowerOfTwo(exponent - 1)
  }

  type Word = word: nat | word < 0x1_0000_0000_0000_0000

  lemma WordRange()
    ensures PowerOfTwo(64) == 0x1_0000_0000_0000_0000
  {
    PowerOfTwoByte(0);
    PowerOfTwoByte(8);
    PowerOfTwoByte(16);
    PowerOfTwoByte(24);
    PowerOfTwoByte(32);
    PowerOfTwoByte(40);
    PowerOfTwoByte(48);
    PowerOfTwoByte(56);
  }

  lemma PowerOfTwoByte(exponent: nat)
    ensures PowerOfTwo(exponent + 8) == 256 * PowerOfTwo(exponent)
  {
    assert PowerOfTwo(exponent + 2) == 4 * PowerOfTwo(exponent);
    assert PowerOfTwo(exponent + 4) == 16 * PowerOfTwo(exponent);
    assert PowerOfTwo(exponent + 6) == 64 * PowerOfTwo(exponent);
  }

  predicate Bit(word: nat, index: nat) {
    if index == 0 then word % 2 == 1 else Bit(word / 2, index - 1)
  }

  function Digit(on: bool): (digit: nat)
    ensures digit < 2
  {
    if on then 1 else 0
  }

  /** Bitwise AND and OR of the lowest `width` digits. */
  function AndDigits(a: nat, b: nat, width: nat): (r: nat)
    ensures r < PowerOfTwo(width)
  {
    if width == 0 then 0
    else 2 * AndDigits(a / 2, b / 2, width - 1) + Digit(a % 2 == 1 && b % 2 == 1)
  }

  function OrDigits(a: nat, b: nat, width: nat): (r: nat)
    ensures r < PowerOfTwo(width)
  {
    if width == 0 then 0
    else 2 * OrDigits(a / 2, b / 2, width - 1) + Digit(a % 2 == 1 || b % 2 == 1)
  }

  function And(a: Word, b: Word): Word {
    WordRange();
    AndDigits(a, b, 64)
  }

  function Or(a: Word, b: Word): Word {
    WordRange();
    OrDigits(a, b, 64)
  }

  /** `1 << index`. */
  function OneShifted(index: nat): Word
    requires index < 64
  {
    WordRange();
    PowerOfTwoMonotone(index, 63);
    PowerOfTwo(index)
  }

  lemma {:induction false} PowerOfTwoMonotone(a: nat, b: nat)
    requires a <= b
    ensures PowerOfTwo(a) <= PowerOfTwo(b)
    decreases b
  {
    if a < b {
      PowerOfTwoMonotone(a, b - 1);
    }
  }

  lemma {:induction false} AndDigitsBit(a: nat, b: nat, width: nat, index: nat)
    requires index < width
    ensures Bit(AndDigits(a, b, width), index) == (Bit(a, index) && Bit(b, index))
    decreases width
  {
    if index > 0 {
      AndDigitsBit(a / 2, b / 2, width - 1, index - 1);
    }
  }

  lemma {:induction false} OrDigitsBit(a: nat, b: nat, width: nat, index: nat)
    requires index < width
    ensures Bit(OrDigits(a, b, width), index) == (Bit(a, index) || Bit(b, index))
    decreases width
  {
    if index > 0 {
      OrDigitsBit(a / 2, b / 2, width - 1, index - 1);
    }
  }

  lemma {:induction false} ZeroBit(index: nat)
    ensures !Bit(0, index)
    decreases index
  {
    if index > 0 {
      ZeroBit(index - 1);
    }
  }

  lemma {:induction false} PowerOfTwoBit(exponent: nat, index: nat)
    ensures Bit(PowerOfTwo(exponent), index) == (index == exponent)
    decreases index
  {
    if exponent == 0 {
      if index > 0 {
        ZeroBit(index - 1);
      }
    } else if index > 0 {
      PowerOfTwoBit(exponent - 1, index - 1);
    }
  }

  /** Numbers below 2^width that agree on their lowest `width` bits are equal. */
  lemma {:induction false} BitsDetermine(a: nat, b: nat, width: nat)
    requires a < PowerOfTwo(width) && b < PowerOfTwo(width)
    requires forall index: nat | index < width :: Bit(a, index) == Bit(b, index)
    ensures a == b
    decreases width
  {
    if width > 0 {
      forall index: nat | index < width - 1
        ensures Bit(a / 2, index) == Bit(b / 2, index)
      {
        assert Bit(a, index + 1) == Bit(b, index + 1);
      }
      BitsDetermine(a / 2, b / 2, width - 1);
      assert Bit(a, 0) == Bit(b, 0);
    }
  }

  lemma WordExtensional(a: Word, b: Word)
    requires forall index: nat | index < 64 :: Bit(a, index) == Bit(b, index)
    ensures a == b
  {
    WordRange();
    BitsDetermine(a, b, 64);
  }

  lemma AndBit(a: Word, b: Word, index: nat)
    requires index < 64
    ensures Bit(And(a, b), index) == (Bit(a, index) && Bit(b, index))
  {
    AndDigitsBit(a, b, 64, index);
  }

  lemma OrOneBit(word: Word, index: nat, other: nat)
    requires index < 64 && other < 64
    ensures Bit(Or(word, OneShifted(index)), other) == (Bit(word, other) || other == index)
  {
    OrDigitsBit(word, PowerOfTwo(index), 64, other);
    PowerOfTwoBit(index, other);
  }

  /** `word & (1 << index) != 0` reads bit `index`. */
  lemma TestOneBit(word: Word, index: nat)
    requires index < 64
    ensures And(word, OneShifted(index)) != 0 <==> Bit(word, index)
  {
    var masked := And(word, OneShifted(index));
    forall other: nat | other < 64
      ensures Bit(masked, other) == (Bit(word, index) && other == index) && !Bit(0, other)
    {
      AndBit(word, OneShifted(index), other);
      PowerOfTwoBit(index, other);
      ZeroBit(other);
    }
    if Bit(word, index) {
      assert Bit(masked, index) && !Bit(0, index);
    } else {
      WordExtensional(masked, 0);
    }
  }
}

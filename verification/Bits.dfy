/** 32-bit masks bit by bit: what the shifts, ands and ors of cache/entry.go do to each bit. Shifts by a
    constant are left to the verifier; shifts by a variable are taken one place at a time. */
module Bits {

  const MASK_DAYS: int := 32

  /** m << s, one place at a time; ShlIsShift shows it is the shift operator. */
  function Shl(m: bv32, s: nat): bv32
  {
    if s == 0 then m else Twice(Shl(m, s - 1))
  }

  function ShiftLeft(m: bv32, s: nat): bv32
    requires s <= MASK_DAYS
  {
    m << s
  }

  function Twice(m: bv32): bv32
  {
    m << 1
  }

  predicate Odd(m: bv32)
  {
    m & 1 == 1
  }

  function Half(m: bv32): bv32
  {
    m >> 1
  }

  function And(a: bv32, b: bv32): bv32
  {
    a & b
  }

  function OrOne(m: bv32): bv32
  {
    m | 1
  }

  /** k low ones; KeepIsShift shows it is 1<<k - 1, up to the full 32-bit shift. */
  function Keep(k: nat): bv32
  {
    if k == 0 then 0 else OrOne(Twice(Keep(k - 1)))
  }

  predicate Bit(m: bv32, i: nat)
    decreases i
  {
    if i == 0 then Odd(m) else Bit(Half(m), i - 1)
  }

  /** The number whose binary digits are the bits of m, and the bits of a number. */
  function ValueOf(m: bv32): nat
    decreases m
  {
    if m == 0 then 0 else 2 * ValueOf(Half(m)) + if Odd(m) then 1 else 0
  }

  function BitsOf(n: nat): bv32
  {
    if n == 0 then 0
    else if n % 2 == 0 then Twice(BitsOf(n / 2))
    else OrOne(Twice(BitsOf(n / 2)))
  }

  /** bits.OnesCount32 */
  function OnesCount(m: bv32): nat
  {
    OnesBelow(m, 32)
  }

  function OnesBelow(m: bv32, n: nat): nat
  {
    if n == 0 then 0 else OnesBelow(m, n - 1) + if Bit(m, n - 1) then 1 else 0
  }

  lemma HalfOfDouble(b: bv32)
    requires b <= 0x7FFF_FFFF
    ensures Half(OrOne(Twice(b))) == b && Odd(OrOne(Twice(b)))
    ensures Half(Twice(b)) == b && !Odd(Twice(b))
    ensures Twice(b) == 0 <==> b == 0
    ensures OrOne(Twice(b)) != 0
  {
  }

  lemma DoubleToInt(b: bv32)
    requires b <= 0x7FFF_FFFF
    ensures (b << 1) as int == 2 * (b as int)
    ensures ((b << 1) | 1) as int == 2 * (b as int) + 1
  {
  }

  lemma DoubleOfHalf(m: bv32)
    ensures m == if Odd(m) then (Half(m) << 1) | 1 else Half(m) << 1
    ensures Half(m) <= 0x7FFF_FFFF
  {
  }

  function AsInt(m: bv32): nat
  {
    m as int
  }

  lemma HalfAsInt(m: bv32)
    ensures AsInt(m) == 2 * AsInt(Half(m)) + if Odd(m) then 1 else 0
  {
    DoubleOfHalf(m);
    DoubleToInt(Half(m));
  }

  /** Reading the bits as a number is the conversion of an unsigned integer. */
  lemma {:induction false} ValueIsConversion(m: bv32)
    ensures ValueOf(m) == AsInt(m)
    decreases m
  {
    if m != 0 {
      HalfShrinks(m);
      ValueIsConversion(Half(m));
      HalfAsInt(m);
    }
  }

  lemma BelowHalf(m: bv32)
    requires AsInt(m) < 0x8000_0000
    ensures m <= 0x7FFF_FFFF
  {
  }

  lemma SmallValue(m: bv32)
    requires ValueOf(m) < 0x8000_0000
    ensures m <= 0x7FFF_FFFF
  {
    ValueIsConversion(m);
    BelowHalf(m);
  }

  lemma {:induction false} ValueOfBitsOf(n: nat)
    requires n < 0x1_0000_0000
    ensures ValueOf(BitsOf(n)) == n
  {
    if n > 0 {
      ValueOfBitsOf(n / 2);
      SmallValue(BitsOf(n / 2));
      HalfOfDouble(BitsOf(n / 2));
    }
  }

  lemma HalfShrinks(m: bv32)
    requires m != 0
    ensures Half(m) < m
  {
  }

  lemma BitOfOne(i: nat)
    ensures Bit(1, i) == (i == 0)
  {
    assert Half(1) == 0;
    if i > 0 {
      BitOfZero(i - 1);
    }
  }

  lemma {:induction false} BitOfZero(i: nat)
    ensures !Bit(0, i)
  {
    if i > 0 {
      BitOfZero(i - 1);
    }
  }

  lemma HalfAnd(a: bv32, b: bv32)
    ensures Half(And(a, b)) == And(Half(a), Half(b))
    ensures Odd(And(a, b)) == (Odd(a) && Odd(b))
  {
  }

  lemma {:induction false} BitAnd(a: bv32, b: bv32, i: nat)
    decreases i
    ensures Bit(And(a, b), i) == (Bit(a, i) && Bit(b, i))
  {
    HalfAnd(a, b);
    if i > 0 {
      BitAnd(Half(a), Half(b), i - 1);
    }
  }

  lemma BitOrOne(m: bv32, i: nat)
    ensures Bit(OrOne(m), i) == (i == 0 || Bit(m, i))
  {
    assert Half(OrOne(m)) == Half(m);
  }

  /** The ones of 0x7FFF_FFFF >> s: bit 0 up to s = 30, and each further shift moves by one. */
  function LowOnes(s: nat): bv32
    requires s <= 31
  {
    0x7FFF_FFFF >> s
  }

  lemma LowOnesOdd(s: nat)
    requires s < 31
    ensures Odd(LowOnes(s))
  {
  }

  lemma LowOnesStep(s: nat)
    requires s < 31
    ensures LowOnes(s + 1) == Half(LowOnes(s))
  {
  }

  lemma {:induction false} BitOfLowOnes(s: nat, i: nat)
    requires s + i < 31
    decreases i
    ensures Bit(LowOnes(s), i)
  {
    LowOnesOdd(s);
    LowOnesStep(s);
    if i > 0 {
      BitOfLowOnes(s + 1, i - 1);
    }
  }

  lemma TwiceThenHalve(m: bv32)
    ensures !Odd(Twice(m))
    ensures Half(Twice(m)) == And(m, LowOnes(0))
  {
  }

  lemma BitTwice(m: bv32, i: nat)
    requires i < MASK_DAYS
    ensures Bit(Twice(m), i) == (i > 0 && Bit(m, i - 1))
  {
    TwiceThenHalve(m);
    if i > 0 {
      BitAnd(m, LowOnes(0), i - 1);
      BitOfLowOnes(0, i - 1);
    }
  }

  predicate BelowEight(s: nat)
  {
    s == 0 || s == 1 || s == 2 || s == 3 || s == 4 || s == 5 || s == 6 || s == 7
  }

  lemma ShiftStep(m: bv32, s: nat)
    requires s < MASK_DAYS
    ensures ShiftLeft(m, s + 1) == Twice(ShiftLeft(m, s))
  {
    if s < 8 {
      ShiftStepFrom0(m, s);
    } else if s < 16 {
      ShiftStepFrom8(m, s);
    } else if s < 24 {
      ShiftStepFrom16(m, s);
    } else {
      ShiftStepFrom24(m, s);
    }
  }

  lemma ShiftStepFrom0(m: bv32, s: nat)
    requires s < 8
    ensures m << (s + 1) == (m << s) << 1
  {
    assert BelowEight(s);
  }

  lemma ShiftStepFrom8(m: bv32, s: nat)
    requires 8 <= s < 16
    ensures m << (s + 1) == (m << s) << 1
  {
    assert BelowEight(s - 8);
  }

  lemma ShiftStepFrom16(m: bv32, s: nat)
    requires 16 <= s < 24
    ensures m << (s + 1) == (m << s) << 1
  {
    assert BelowEight(s - 16);
  }

  lemma ShiftStepFrom24(m: bv32, s: nat)
    requires 24 <= s < 32
    ensures m << (s + 1) == (m << s) << 1
  {
    assert BelowEight(s - 24);
  }

  /** Up to the whole width, whose shift leaves 0. */
  lemma {:induction false} ShlIsShift(m: bv32, s: nat)
    requires s <= MASK_DAYS
    ensures Shl(m, s) == ShiftLeft(m, s)
  {
    if s == 0 {
      assert m << 0 == m;
    } else {
      ShlIsShift(m, s - 1);
      ShiftStep(m, s - 1);
    }
  }

  lemma {:induction false} BitShl(m: bv32, s: nat, i: nat)
    requires i < MASK_DAYS
    ensures Bit(Shl(m, s), i) == (i >= s && Bit(m, i - s))
    decreases s
  {
    if s > 0 {
      BitTwice(Shl(m, s - 1), i);
      if i > 0 {
        BitShl(m, s - 1, i - 1);
      }
    }
  }

  /** The mask of k low ones is the machine's 1<<k - 1, up to the full width, whose shift leaves 0 and whose
      mask is all ones. */
  lemma KeepIsShift(k: nat)
    requires k <= MASK_DAYS
    ensures Keep(k) == ShiftLeft(1, k) - 1
  {
    KeepIsShl(k);
    ShlIsShift(1, k);
  }

  lemma {:induction false} KeepIsShl(k: nat)
    ensures Keep(k) == Shl(1, k) - 1
  {
    if k > 0 {
      KeepIsShl(k - 1);
      KeepStep(Shl(1, k - 1));
    }
  }

  lemma KeepStep(p: bv32)
    ensures Twice(p) - 1 == OrOne(Twice(p - 1))
  {
  }

  lemma {:induction false} BitOfKeep(k: nat, i: nat)
    requires i < MASK_DAYS
    ensures Bit(Keep(k), i) == (i < k)
    decreases k
  {
    if k == 0 {
      BitOfZero(i);
    } else {
      BitOrOne(Twice(Keep(k - 1)), i);
      BitTwice(Keep(k - 1), i);
      if i > 0 {
        BitOfKeep(k - 1, i - 1);
      }
    }
  }
}

/** Core/Extensions/NumberExtensions.cs, and the wrapping arithmetic of C# `int`. */
module Numbers {
  const Int32Modulus: int := 0x1_0000_0000

  /** The values of a C# `int`. */
  type Int32 = x: int | -0x8000_0000 <= x < 0x8000_0000

  /** Unchecked `int` arithmetic: the two's-complement value congruent to `x` modulo 2^32. */
  function Wrap32(x: int): (r: Int32)
    ensures (x - r) % Int32Modulus == 0
    ensures -0x8000_0000 <= x < 0x8000_0000 ==> r == x
  {
    (x + 0x8000_0000) % Int32Modulus - 0x8000_0000
  }

  /** Wrapping forgets whole multiples of 2^32. */
  lemma Wrap32Shift(x: int, k: int)
    ensures Wrap32(x + k * Int32Modulus) == Wrap32(x)
  {
    ModShift(x + 0x8000_0000, k);
  }

  lemma {:induction false} ModShift(a: int, k: int)
    ensures (a + k * Int32Modulus) % Int32Modulus == a % Int32Modulus
    decreases if k < 0 then -k else k
  {
    if k > 0 {
      ModShift(a, k - 1);
      assert a + k * Int32Modulus == (a + (k - 1) * Int32Modulus) + Int32Modulus;
    } else if k < 0 {
      ModShift(a, k + 1);
      assert a + k * Int32Modulus == (a + (k + 1) * Int32Modulus) - Int32Modulus;
    }
  }

  /** `value.Clamp(minimum, maximum)`: the two comparisons in source order, so `minimum` wins when the bounds cross. */
  function Clamp(value: int, minimum: int, maximum: int): (r: int)
    ensures value < minimum ==> r == minimum
    ensures minimum <= value && maximum < value ==> r == maximum
    ensures minimum <= value <= maximum ==> r == value
  {
    if value < minimum then minimum
    else if value > maximum then maximum
    else value
  }

  lemma ClampInRange(value: int, minimum: int, maximum: int)
    requires minimum <= maximum
    ensures minimum <= Clamp(value, minimum, maximum) <= maximum
    ensures Clamp(Clamp(value, minimum, maximum), minimum, maximum) == Clamp(value, minimum, maximum)
  {
  }
}

/**
 * IEEE-754 binary64 values kept as their 64-bit patterns.
 *
 * The reader never does arithmetic on the values it reads; it only compares
 * them with zero (`max_health > 0`, `current_health >= 0`). Those comparisons
 * are exact predicates on the bit pattern, so NaN and negative zero behave as
 * they do in Python.
 */
module FloatBits {

  /** A binary64 bit pattern (what `struct.unpack("<d")` decodes). */
  type Double = x: int | 0 <= x < 0x1_0000_0000_0000_0000

  /** A binary32 bit pattern (what `read_float` decodes). */
  type Single = x: int | 0 <= x < 0x1_0000_0000

  /** The pattern of +0.0, the value every failed read degrades to. */
  const PositiveZero: Double := 0

  /** The pattern of -0.0. */
  const NegativeZero: Double := 0x8000_0000_0000_0000

  /** The pattern of +infinity: the largest non-NaN pattern with the sign bit clear. */
  const PositiveInfinity: Double := 0x7FF0_0000_0000_0000

  /** The pattern of -infinity. */
  const NegativeInfinity: Double := 0xFFF0_0000_0000_0000

  /** NaN: exponent all ones and a non-zero fraction, either sign. */
  predicate IsNaN(d: Double) {
    (PositiveInfinity < d < NegativeZero) || NegativeInfinity < d
  }

  /** `d > 0.0`: sign clear, not a zero, not a NaN (+infinity included). */
  predicate IsPositive(d: Double) {
    PositiveZero < d <= PositiveInfinity
  }

  /** `d >= 0.0`: the positive values and both zeros (-0.0 >= 0 holds). */
  predicate IsNonNegative(d: Double) {
    d <= PositiveInfinity || d == NegativeZero
  }

  /** The comparisons partition as IEEE-754 says: a NaN is neither >= 0 nor < 0. */
  lemma ComparisonsPartition(d: Double)
    ensures IsPositive(d) ==> IsNonNegative(d) && !IsNaN(d)
    ensures IsNaN(d) ==> !IsNonNegative(d)
    ensures IsNonNegative(d) && !IsPositive(d) <==> d == PositiveZero || d == NegativeZero
  {
  }
}

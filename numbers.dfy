/**
 * Numbers of the language are JVM doubles. The model identifies a double by its
 * 64-bit IEEE-754 pattern and defines only the two tests the interpreter makes on
 * numbers itself: the zero test of the division check and the equality that Kotlin's
 * `==` uses on boxed values. Arithmetic, comparison and `Double.toString` are host
 * operations, supplied as a `Host` record.
 */
module Numbers {

  datatype Number = Number(bits: bv64)

  const SignBit: bv64 := 0x8000_0000_0000_0000
  const ExponentBits: bv64 := 0x7FF0_0000_0000_0000
  const FractionBits: bv64 := 0x000F_FFFF_FFFF_FFFF

  /** `r == 0.0` on a primitive double: true of +0.0 and of -0.0, false of everything else. */
  predicate IsZero(n: Number) {
    n.bits & !SignBit == 0
  }

  predicate IsNaN(n: Number) {
    n.bits & ExponentBits == ExponentBits && n.bits & FractionBits != 0
  }

  /** `Double.equals`: the same bit pattern, except that every NaN equals every NaN. */
  predicate SameDouble(a: Number, b: Number) {
    a.bits == b.bits || (IsNaN(a) && IsNaN(b))
  }

  /** The host's double arithmetic and `Double.toString`, which the model does not interpret. */
  datatype Host = Host(
    negate: Number -> Number,
    add: (Number, Number) -> Number,
    subtract: (Number, Number) -> Number,
    multiply: (Number, Number) -> Number,
    divide: (Number, Number) -> Number,
    greater: (Number, Number) -> bool,
    greaterEqual: (Number, Number) -> bool,
    less: (Number, Number) -> bool,
    text: Number -> string)

  /** The zero test accepts exactly the two zero patterns, and no NaN is zero. */
  lemma ZeroPatterns(n: Number)
    ensures IsZero(n) <==> n.bits == 0 || n.bits == SignBit
    ensures IsZero(n) ==> !IsNaN(n)
  {
  }

  /** `Double.equals` is an equivalence relation, so `==` in the language is one too. */
  lemma SameDoubleIsEquivalence(a: Number, b: Number, c: Number)
    ensures SameDouble(a, a)
    ensures SameDouble(a, b) ==> SameDouble(b, a)
    ensures SameDouble(a, b) && SameDouble(b, c) ==> SameDouble(a, c)
  {
  }
}

/**
 JavaScript numbers as options deliver them, safe integers, powers of two, and the larger and smaller of two reals.
 */
module Numbers {

  const MAX_SAFE: int := 9007199254740991

  /** A number: finite, or one of the three values that are not. Rounding is not modelled. */
  datatype Number = Finite(value: real) | PositiveInfinity | NegativeInfinity | NotANumber

  predicate IsSafe(n: int) {
    -MAX_SAFE <= n <= MAX_SAFE
  }

  /** `Number.isSafeInteger` */
  predicate IsSafeInteger(n: Number) {
    n.Finite? && n.value.Floor as real == n.value && IsSafe(n.value.Floor)
  }

  function IntegerOf(n: Number): int
    requires IsSafeInteger(n)
  {
    n.value.Floor
  }

  /** `x < n` for an integer `x`; false when `n` is not a number. */
  predicate LessThan(x: int, n: Number) {
    match n
    case Finite(value) => x as real < value
    case PositiveInfinity => true
    case _ => false
  }

  function Pow2(n: nat): (p: nat)
    ensures p >= 1
  {
    if n == 0 then 1 else 2 * Pow2(n - 1)
  }

  function RealMax(a: real, b: real): real { if a < b then b else a }

  function RealMin(a: real, b: real): real { if b < a then b else a }
}

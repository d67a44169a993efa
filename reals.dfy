/** Small facts about real numbers shared by the other modules. */
module Reals {

  function Min(x: real, y: real): real { if y < x then y else x }

  function Max(x: real, y: real): real { if x < y then y else x }

  /** The sum of a sequence, adding its elements from the first to the last. */
  function Sum(s: seq<real>): real {
    if s == [] then 0.0 else Sum(s[..|s| - 1]) + s[|s| - 1]
  }

  lemma MulNonNegative(x: real, y: real)
    requires 0.0 <= x && 0.0 <= y
    ensures 0.0 <= x * y
  {
  }

  /** Multiplying a quotient by its divisor gives back the dividend. */
  lemma DivisionUndone(x: real, d: real, q: real)
    requires d != 0.0
    requires q == x / d
    ensures q * d == x
  {
  }
}

/** Small notions that several components share. */
module Basics {

  datatype Option<+T> = None | Some(value: T)

  function Min(a: nat, b: nat): nat {
    if a < b then a else b
  }

  function Pow2(n: nat): nat {
    if n == 0 then 1 else 2 * Pow2(n - 1)
  }

  /** Division and remainder of C, which round towards zero. */
  function Quotient(a: int, b: nat): int
    requires b > 0
  {
    if a >= 0 then a / b else -(-a / b)
  }

  function Remainder(a: int, b: nat): int
    requires b > 0
  {
    a - b * Quotient(a, b)
  }

  lemma RoundsTowardsZero(a: int, b: nat)
    requires b > 0
    ensures a >= 0 ==> 0 <= Remainder(a, b) < b && Quotient(a, b) >= 0
    ensures a <= 0 ==> -(b as int) < Remainder(a, b) <= 0 && Quotient(a, b) <= 0
  {}
}

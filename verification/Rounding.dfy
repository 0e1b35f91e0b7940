/** Rounding a real to an integer, in the ways the repository does it. */
module Rounding {

  /** C++ `std::round` and `std::llround`: halfway cases away from zero. */
  function Round(x: real): int {
    if x >= 0.0 then (x + 0.5).Floor else -((-x + 0.5).Floor)
  }

  /** Conversion to an integer type: toward zero. */
  function Trunc(x: real): int {
    if x >= 0.0 then x.Floor else -((-x).Floor)
  }

  /** Python `round`: halfway cases to the even neighbour. */
  function RoundEven(x: real): int {
    var f := x.Floor;
    var d := x - f as real;
    if d < 0.5 || (d == 0.5 && f % 2 == 0) then f else f + 1
  }

  /** Toward zero: the whole part is between zero and the number, less than one away. */
  lemma TruncMeaning(x: real)
    ensures x >= 0.0 ==> 0.0 <= Trunc(x) as real <= x < Trunc(x) as real + 1.0
    ensures x <= 0.0 ==> Trunc(x) as real - 1.0 < x <= Trunc(x) as real <= 0.0
  {
  }

  /** The nearest whole number; a number halfway between two goes away from zero. */
  lemma RoundMeaning(x: real)
    ensures -0.5 <= x - Round(x) as real <= 0.5
    ensures x - Round(x) as real == 0.5 ==> x < 0.0
    ensures x - Round(x) as real == -0.5 ==> x > 0.0
  {
  }

  /** The nearest whole number; a number halfway between two goes to the even one. */
  lemma RoundEvenMeaning(x: real)
    ensures -0.5 <= x - RoundEven(x) as real <= 0.5
    ensures x - RoundEven(x) as real == 0.5 || x - RoundEven(x) as real == -0.5 ==> RoundEven(x) % 2 == 0
  {
    var f := x.Floor;
    if x - f as real > 0.5 || (x - f as real == 0.5 && f % 2 != 0) {
      assert (f + 1) as real == f as real + 1.0;
    }
  }
}

/** Decimal rounding on exact rationals. */
module Rounding {

  /** Nearest integer, ties to even. */
  function RoundHalfEven(x: real): (r: int)
    ensures -0.5 <= x - r as real <= 0.5
    ensures x == x.Floor as real ==> r == x.Floor
    ensures x - r as real == 0.5 || x - r as real == -0.5 ==> r % 2 == 0
  {
    var low := x.Floor;
    var part := x - low as real;
    if part < 0.5 then low
    else if part > 0.5 then low + 1
    else if low % 2 == 0 then low
    else low + 1
  }

  /** Nearest integer, ties away from zero. */
  function RoundHalfUp(x: real): (r: int)
    ensures -0.5 <= x - r as real <= 0.5
    ensures x == x.Floor as real ==> r == x.Floor
    ensures x >= 0.0 ==> x - r as real < 0.5
    ensures x <= 0.0 ==> r as real - x < 0.5
  {
    if x >= 0.0 then (x + 0.5).Floor else -((-x + 0.5).Floor)
  }

  lemma FloorGrows(x: real, y: real)
    requires x <= y
    ensures x.Floor <= y.Floor
  {
  }

  lemma RoundHalfUpGrows(x: real, y: real)
    requires x <= y
    ensures RoundHalfUp(x) <= RoundHalfUp(y)
  {
    if x >= 0.0 {
      FloorGrows(x + 0.5, y + 0.5);
    } else if y < 0.0 {
      FloorGrows(-y + 0.5, -x + 0.5);
    } else {
      FloorGrows(0.5, -x + 0.5);
      FloorGrows(0.5, y + 0.5);
    }
  }
}

/** Python's `round` on exact numbers: to the nearest integer, and half to even. */
module Rounding {
  function Round(x: real): int {
    var low := x.Floor;
    var part := x - low as real;
    if part < 0.5 then low
    else if part > 0.5 then low + 1
    else if low % 2 == 0 then low else low + 1
  }

  lemma RoundIsNearest(x: real)
    ensures -0.5 <= Round(x) as real - x <= 0.5
  {
  }

  /** The nearest integer, and of two that are equally near the even one. */
  lemma RoundExactly(x: real, n: int)
    ensures Round(x) == n <==>
            -0.5 < n as real - x < 0.5 || ((n as real - x == 0.5 || n as real - x == -0.5) && n % 2 == 0)
  {
    var low := x.Floor;
    if n < low {
      assert (low - n) as real >= 1.0;
    } else if n > low + 1 {
      assert (n - low) as real >= 2.0;
    }
  }
}

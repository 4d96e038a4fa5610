/**
  Integer division as Kotlin (`Long / Long`) and JavaScript (`%`) perform it:
  the quotient is truncated toward zero and the remainder takes the sign of
  the dividend. Dafny's own `/` and `%` are Euclidean, which agrees only for
  a non-negative dividend.
*/
module Arith {

  /** Remainder of truncating division by a positive divisor. */
  function TruncRem(a: int, b: int): (r: int)
    requires b > 0
    ensures a >= 0 ==> 0 <= r < b
    ensures a < 0 ==> -b < r <= 0
  {
    if a >= 0 then a % b else -((-a) % b)
  }

  /** Quotient of truncating division by a positive divisor. */
  function TruncDiv(a: int, b: int): (q: int)
    requires b > 0
    ensures q * b + TruncRem(a, b) == a
    ensures a >= 0 ==> q == a / b
    ensures a < 0 ==> q == -((-a) / b)
  {
    if a >= 0 then a / b
    else
      var m := -a;
      assert (m / b) * b + m % b == m;
      assert (-(m / b)) * b == -((m / b) * b);
      -(m / b)
  }
}

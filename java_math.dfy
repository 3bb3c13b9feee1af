/** Integer division as Kotlin/Java do it on `Long`: the quotient is truncated
    toward zero and the remainder takes the sign of the dividend.  Dafny's own
    `/` and `%` are Euclidean, so they differ from these for negative dividends. */
module JavaMath {

  /** `a / b` on a JVM `Long`, for a positive divisor. */
  function Quot(a: int, b: int): (q: int)
    requires b > 0
    // non-negative dividends round down, negative ones round up: toward zero
    ensures a >= 0 ==> 0 <= a - q * b < b
    ensures a < 0 ==> -b < a - q * b <= 0
  {
    if a >= 0 then a / b else -((-a) / b)
  }

  /** `a % b` on a JVM `Long`, for a positive divisor. */
  function Rem(a: int, b: int): (r: int)
    requires b > 0
    ensures Quot(a, b) * b + r == a
    ensures -b < r < b
    ensures a >= 0 ==> r >= 0
    ensures a <= 0 ==> r <= 0
  {
    if a >= 0 then a % b else -((-a) % b)
  }

  /** Truncating division is odd in its dividend, unlike Euclidean division. */
  lemma QuotRemNegate(a: int, b: int)
    requires b > 0
    ensures Quot(-a, b) == -Quot(a, b)
    ensures Rem(-a, b) == -Rem(a, b)
  {
    if a == 0 {
      assert Quot(0, b) == 0 && Rem(0, b) == 0;
    } else if a > 0 {
      assert Quot(-a, b) == -(a / b) && Rem(-a, b) == -(a % b);
    } else {
      assert Quot(a, b) == -((-a) / b) && Rem(a, b) == -((-a) % b);
    }
  }
}

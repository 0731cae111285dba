/** JavaScript's remainder on integers. */
module JsNumbers {
  /** `%` for a positive divisor: the result has the sign of the dividend. */
  function JsRemainder(n: int, divisor: int): int
    requires divisor > 0
  {
    if n >= 0 then n % divisor else -((-n) % divisor)
  }

  /** The remainder is smaller than the divisor, has the dividend's sign and leaves a multiple. */
  lemma RemainderIs(n: int, divisor: int)
    requires divisor > 0
    ensures var r := JsRemainder(n, divisor);
            (exists q :: n == q * divisor + r) && -divisor < r < divisor && (n > 0 ==> r >= 0) && (n < 0 ==> r <= 0)
  {
    if n >= 0 {
      assert n == (n / divisor) * divisor + JsRemainder(n, divisor);
    } else {
      assert n == (-((-n) / divisor)) * divisor + JsRemainder(n, divisor);
    }
  }
}

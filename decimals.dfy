/**
 * Exact decimal numbers. Readings' measurements are treated as exact decimal
 * values (`real`), so "at most k fractional digits" is "x * 10^k is a whole
 * number".
 */
module Decimals {

  function Pow10(k: nat): (r: nat)
    ensures r >= 1
  {
    if k == 0 then 1 else 10 * Pow10(k - 1)
  }

  predicate IsWhole(x: real)
  {
    x.Floor as real == x
  }

  /** `x` has at most `k` digits after the decimal point. */
  predicate HasAtMostDecimals(x: real, k: nat)
  {
    IsWhole(x * Pow10(k) as real)
  }
}

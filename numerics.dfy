/**
 * Arithmetic of the JVM as the geometry code uses it: Kotlin's `Float.toInt()`
 * and Kotlin's integer halving, both of which truncate toward zero, Java's
 * `Math.round`, and the `maxOf`/`minOf` helpers. Floats are modelled as exact reals.
 */
module Numerics {

  function Max(a: int, b: int): int { if a >= b then a else b }
  function Min(a: int, b: int): int { if a <= b then a else b }
  function MaxR(a: real, b: real): real { if a >= b then a else b }
  function MinR(a: real, b: real): real { if a <= b then a else b }

  /** Kotlin `Float.toInt()`: rounds toward zero (saturation and NaN are not needed here). */
  function ToInt(x: real): (r: int)
    ensures x >= 0.0 ==> 0 <= r && r as real <= x < r as real + 1.0
    ensures x < 0.0 ==> r <= 0 && r as real - 1.0 < x <= r as real
  {
    if x >= 0.0 then x.Floor else -((-x).Floor)
  }

  /** Java `Math.round(float)`: the nearest integer, a half rounded up. */
  function Round(x: real): (r: int)
    ensures r as real - 0.5 <= x < r as real + 0.5
  {
    (x + 0.5).Floor
  }

  /** Kotlin `a / 2` on Int: half of `a`, truncated toward zero. */
  function Half(a: int): (q: int)
    ensures a >= 0 ==> 0 <= q && 2 * q <= a <= 2 * q + 1
    ensures a < 0 ==> q <= 0 && 2 * q - 1 <= a <= 2 * q
  {
    if a >= 0 then a / 2 else -((-a) / 2)
  }

  /** Truncation never goes below an integer lower bound of its argument. */
  lemma ToIntAtLeast(x: real, n: int)
    requires n as real <= x
    ensures n <= ToInt(x)
  {
  }

  /** Truncation never goes above a non-negative integer upper bound of its argument. */
  lemma ToIntAtMost(x: real, n: int)
    requires 0.0 <= x <= n as real
    ensures ToInt(x) <= n
  {
  }
}

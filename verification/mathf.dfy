/** The few numeric helpers of Unity's `Mathf` that the game logic relies on,
    over exact reals and unbounded integers. */
module Mathf {

  /** `Mathf.Max(a, b)` on floats. */
  function Max(a: real, b: real): (r: real)
    ensures r >= a && r >= b
    ensures r == a || r == b
  {
    if a >= b then a else b
  }

  /** `Mathf.Max(0, x)` on ints: a count that is never negative. */
  function NonNegative(x: int): (r: nat)
    ensures r >= x
    ensures x >= 0 ==> r == x
    ensures x < 0 ==> r == 0
  {
    if x < 0 then 0 else x
  }

  /** `Mathf.Clamp01(x)`: the nearest point of [0, 1] to `x`. */
  function Clamp01(x: real): (r: real)
    ensures 0.0 <= r <= 1.0
    ensures 0.0 <= x <= 1.0 ==> r == x
    ensures x < 0.0 ==> r == 0.0
    ensures x > 1.0 ==> r == 1.0
  {
    if x < 0.0 then 0.0 else if x > 1.0 then 1.0 else x
  }

  /** `Max(0, x - d)`: the clamped subtraction every health pool in the game uses. */
  function ClampedSub(x: real, d: real): (r: real)
    ensures r >= 0.0
    ensures r == 0.0 <==> x - d <= 0.0
    ensures x - d > 0.0 ==> r == x - d
  {
    Max(0.0, x - d)
  }
}

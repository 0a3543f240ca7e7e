/**
 * The fixed configuration of the measuring app (the CONFIG block of
 * script.js) and the two `Math` helpers the core uses.
 */
module Config {

  /** True diameter, in millimetres, of the reference coin in every photo. */
  const COIN_DIAMETER_MM: real := 24.0

  /** Noise floor: a contour must enclose strictly more pixels than this. */
  const MIN_CONTOUR_AREA: real := 500.0

  /** A product passes when its match percentage is at least this. */
  const PASS_THRESHOLD: real := 95.0

  /** `Math.PI`, as the shortest decimal that reads back as `Math.PI`. */
  const PI: real := 3.141592653589793

  /** `Math.abs` on reals. */
  function Abs(x: real): (r: real)
    ensures r >= 0.0 && (r == x || r == -x)
  {
    if x < 0.0 then -x else x
  }

  /** `Math.max` of two reals. */
  function Max(a: real, b: real): (r: real)
    ensures r >= a && r >= b && (r == a || r == b)
  {
    if a >= b then a else b
  }
}

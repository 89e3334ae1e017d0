/** Numeric helpers of src/utils/mathUtils.ts, over the reals. */
module MathUtils {

  function Min(a: real, b: real): real { if a <= b then a else b }

  function Max(a: real, b: real): real { if a >= b then a else b }

  /** `Math.min(Math.max(t, 0), 1)`: the interpolation parameter clamped to [0, 1]. */
  function Clamp01(t: real): (r: real)
    ensures 0.0 <= r <= 1.0
    ensures 0.0 <= t <= 1.0 ==> r == t
    ensures t <= 0.0 ==> r == 0.0
    ensures t >= 1.0 ==> r == 1.0
  {
    Min(Max(t, 0.0), 1.0)
  }

  /** Linear interpolation from `a` to `b` with a clamped parameter. */
  function Lerp(a: real, b: real, t: real): (r: real)
    ensures Min(a, b) <= r <= Max(a, b)
    ensures t <= 0.0 ==> r == a
    ensures t >= 1.0 ==> r == b
  {
    var c := Clamp01(t);
    LerpBetween(a, b, c);
    a + (b - a) * c
  }

  /** For a parameter already in [0, 1] the interpolant lies between the
      endpoints: it is the start plus a non-negative share of the span that
      is at most the whole span. */
  lemma LerpBetween(a: real, b: real, c: real)
    requires 0.0 <= c <= 1.0
    ensures Min(a, b) <= a + (b - a) * c <= Max(a, b)
  {
    if a <= b {
      ProductNonNegative(b - a, c);
      ProductNonNegative(b - a, 1.0 - c);
    } else {
      ProductNonNegative(a - b, c);
      ProductNonNegative(a - b, 1.0 - c);
    }
  }

  /** A product of two non-negative numbers is non-negative. */
  lemma ProductNonNegative(a: real, b: real)
    requires a >= 0.0 && b >= 0.0
    ensures a * b >= 0.0
  {
  }

  /** A product of two positive numbers is positive. */
  lemma ProductPositive(a: real, b: real)
    requires a > 0.0 && b > 0.0
    ensures a * b > 0.0
  {
  }

  /** Endpoints: `lerp(a, b, 0) == a` and `lerp(a, b, 1) == b`; in between
      the interpolant is exact for a parameter in [0, 1]. */
  lemma LerpEndpoints(a: real, b: real)
    ensures Lerp(a, b, 0.0) == a && Lerp(a, b, 1.0) == b
    ensures forall t :: 0.0 <= t <= 1.0 ==> Lerp(a, b, t) == a + (b - a) * t
  {
  }
}

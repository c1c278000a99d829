/** Linear interpolation (game.py `lerp`), over the reals.
    The game applies it to floating-point pixel positions; rounding is not modelled. */
module Interpolation {

  /** The value a fraction `t` of the way from `a` to `b`; not clamped, so a `t`
      outside [0, 1] extrapolates beyond `a` or `b`. */
  function Lerp(a: real, b: real, t: real): real
  {
    a + (b - a) * t
  }

  /** The identities the doc comment of `lerp` promises. */
  lemma LerpIdentities(a: real, b: real)
    ensures Lerp(a, b, 0.0) == a
    ensures Lerp(a, b, 1.0) == b
    ensures Lerp(10.0, 20.0, 0.5) == 15.0
  {
  }

  /** For `t` in [0, 1] the result lies between `a` and `b`. */
  lemma LerpBetween(a: real, b: real, t: real)
    requires 0.0 <= t <= 1.0
    ensures a <= b ==> a <= Lerp(a, b, t) <= b
    ensures b <= a ==> b <= Lerp(a, b, t) <= a
  {
    var d := b - a;
    var m := if a <= b then d else -d;
    assert 0.0 <= m * t && 0.0 <= m * (1.0 - t);
    assert d * (1.0 - t) == d - d * t;
  }

  /** Between a fixed pair of end points the result grows with `t`
      (and extrapolates linearly outside [0, 1]). */
  lemma LerpMonotone(a: real, b: real, s: real, t: real)
    requires a <= b && s <= t
    ensures Lerp(a, b, s) <= Lerp(a, b, t)
    ensures Lerp(a, b, t) - Lerp(a, b, s) == (b - a) * (t - s)
  {
  }

  /** One smoothing step with speed `t` in [0, 1] leaves a remaining distance to the
      target `b` of exactly (1 - t) times the old one: the pixel position never
      overshoots and approaches the grid position geometrically. */
  lemma LerpApproach(a: real, b: real, t: real)
    requires 0.0 <= t <= 1.0
    ensures b - Lerp(a, b, t) == (1.0 - t) * (b - a)
    ensures a <= b ==> 0.0 <= b - Lerp(a, b, t) <= b - a
    ensures b <= a ==> b - a <= b - Lerp(a, b, t) <= 0.0
  {
    LerpBetween(a, b, t);
  }
}

/** The transcendental functions the engine calls (numpy's exp, sin, cos, tan
    and radians) are not defined here: every operation that needs one takes it
    as a parameter, and states in a `requires` the few facts it relies on. */
module Transcendental {

  /** What the model knows about `exp`: positive, strictly increasing, exp(0) = 1. */
  ghost predicate IsExp(exp: real -> real)
  {
    && exp(0.0) == 1.0
    && (forall x :: exp(x) > 0.0)
    && (forall x, y :: x < y ==> exp(x) < exp(y))
  }

  /** Sine, cosine and tangent of an angle given in DEGREES, that is
      `np.sin(np.radians(d))` and so on: the degree-to-radian conversion is
      folded into each function. */
  datatype Trig = Trig(sinDeg: real -> real, cosDeg: real -> real, tanDeg: real -> real)

  /** The facts the model uses: sine and cosine are in (0, 1] on the clamped
      slope range [0.1, 89.9] degrees, and the tangent is non-negative on
      [0, 90) degrees. */
  ghost predicate ValidTrig(t: Trig)
  {
    && (forall d :: 0.1 <= d <= 89.9 ==> 0.0 < t.sinDeg(d) <= 1.0)
    && (forall d :: 0.1 <= d <= 89.9 ==> 0.0 < t.cosDeg(d) <= 1.0)
    && (forall d :: 0.0 <= d < 90.0 ==> t.tanDeg(d) >= 0.0)
  }
}

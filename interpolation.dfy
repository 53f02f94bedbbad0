/** The display-only blend between the previous and the current simulated state. */
module Interpolation {
  import opened StateModel

  /** `x` blended toward `y` by `alpha`. */
  function Blend(x: real, y: real, alpha: real): (b: real)
    ensures x == y ==> b == x
    ensures alpha == 0.0 ==> b == x
    ensures alpha == 1.0 ==> b == y
  {
    x * (1.0 - alpha) + y * alpha
  }

  /** A blend with `alpha` in [0, 1] lies between its two ends. */
  lemma BlendBetween(x: real, y: real, alpha: real)
    requires 0.0 <= alpha <= 1.0
    ensures x <= y ==> x <= Blend(x, y, alpha) <= y
    ensures y <= x ==> y <= Blend(x, y, alpha) <= x
  {
    assert Blend(x, y, alpha) == x + (y - x) * alpha;
    var d := if x <= y then y - x else x - y;
    MulNonNegative(d, alpha);
    MulNonNegative(d, 1.0 - alpha);
    assert d * alpha + d * (1.0 - alpha) == d;
  }

  lemma MulNonNegative(a: real, b: real)
    requires 0.0 <= a && 0.0 <= b
    ensures 0.0 <= a * b
  {
  }

  /** Position and velocity are blended; `valid` is that of `curr`. */
  function InterpolateState(prev: SystemState, curr: SystemState, alpha: real): (r: SystemState)
    ensures r.valid == curr.valid
    ensures alpha == 0.0 ==> r == prev.(valid := curr.valid)
    ensures alpha == 1.0 ==> r == curr
  {
    curr.(position := Blend(prev.position, curr.position, alpha),
          velocity := Blend(prev.velocity, curr.velocity, alpha))
  }

  /** Blending a state with itself gives it back, for every alpha. */
  lemma InterpolateSameState(s: SystemState, alpha: real)
    ensures InterpolateState(s, s, alpha) == s
  {
  }

  /** For alpha in [0, 1] the display position and velocity lie between the two states'. */
  lemma InterpolateBetween(prev: SystemState, curr: SystemState, alpha: real)
    requires 0.0 <= alpha <= 1.0
    ensures var r := InterpolateState(prev, curr, alpha);
      && (prev.position <= curr.position ==> prev.position <= r.position <= curr.position)
      && (curr.position <= prev.position ==> curr.position <= r.position <= prev.position)
      && (prev.velocity <= curr.velocity ==> prev.velocity <= r.velocity <= curr.velocity)
      && (curr.velocity <= prev.velocity ==> curr.velocity <= r.velocity <= prev.velocity)
  {
    BlendBetween(prev.position, curr.position, alpha);
    BlendBetween(prev.velocity, curr.velocity, alpha);
  }
}

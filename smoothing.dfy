/** Numeric helpers shared by every animator: three.js-style lerp, min/max and running sums of frame deltas. */
module Smoothing {

  function Min(a: real, b: real): (m: real)
    ensures m <= a && m <= b && (m == a || m == b)
  {
    if a <= b then a else b
  }

  function Max(a: real, b: real): (m: real)
    ensures m >= a && m >= b && (m == a || m == b)
  {
    if a >= b then a else b
  }

  /** x lies on the closed segment between a and b, whichever is larger. */
  predicate Between(x: real, a: real, b: real) {
    Min(a, b) <= x <= Max(a, b)
  }

  /**
   * One exponential-smoothing step `v += (target - v) * alpha`, the rule behind
   * Vector3.lerp, Color.lerp and the scene's scale and rotation easing: the gap to
   * the target shrinks by the factor 1 - alpha and the value never overshoots.
   */
  function Lerp(v: real, target: real, alpha: real): (r: real)
    requires 0.0 <= alpha <= 1.0
    ensures r - target == (1.0 - alpha) * (v - target)
    ensures Between(r, v, target)
    ensures alpha < 1.0 && v != target ==> r != target
  {
    var d := target - v;
    var step := d * alpha;
    MulNonNegative(if d >= 0.0 then d else -d, alpha);
    MulNonNegative(if d >= 0.0 then d else -d, 1.0 - alpha);
    assert d * (1.0 - alpha) == d - step;
    assert alpha < 1.0 && d != 0.0 ==> (1.0 - alpha) * d != 0.0 by {
      if alpha < 1.0 && d != 0.0 {
        MulNonZero(1.0 - alpha, d);
      }
    }
    v + step
  }

  lemma MulNonNegative(a: real, b: real)
    requires a >= 0.0 && b >= 0.0
    ensures a * b >= 0.0
  {
  }

  lemma MulNonZero(a: real, b: real)
    requires a != 0.0 && b != 0.0
    ensures a * b != 0.0
  {
  }

  /** Total elapsed time of a sequence of frame deltas. */
  function Sum(dts: seq<real>): real
  {
    if dts == [] then 0.0 else dts[0] + Sum(dts[1..])
  }

  predicate NonNegative(dts: seq<real>) {
    forall k :: 0 <= k < |dts| ==> dts[k] >= 0.0
  }

  lemma {:induction false} SumNonNegative(dts: seq<real>)
    requires NonNegative(dts)
    ensures Sum(dts) >= 0.0
  {
    if dts != [] {
      assert NonNegative(dts[1..]) by {
        forall k | 0 <= k < |dts[1..]| ensures dts[1..][k] >= 0.0 {
          assert dts[1..][k] == dts[k + 1];
        }
      }
      SumNonNegative(dts[1..]);
    }
  }

  lemma TailNonNegative(dts: seq<real>)
    requires dts != [] && NonNegative(dts)
    ensures dts[0] >= 0.0 && NonNegative(dts[1..])
  {
    forall k | 0 <= k < |dts[1..]| ensures dts[1..][k] >= 0.0 {
      assert dts[1..][k] == dts[k + 1];
    }
  }

  function Cube(x: real): real {
    x * x * x
  }

  /** x ↦ x³ is monotone on the non-negative reals. */
  lemma CubeMonotone(a: real, b: real)
    requires 0.0 <= a <= b
    ensures Cube(a) <= Cube(b)
  {
    assert a * a <= a * b <= b * b by {
      assert a * (b - a) >= 0.0;
      assert b * (b - a) >= 0.0;
    }
    assert a * a * a <= b * b * a by {
      assert (b * b - a * a) * a >= 0.0;
    }
    assert b * b * a <= b * b * b by {
      assert (b * b) * (b - a) >= 0.0;
    }
  }

  lemma CubeUnit(x: real)
    requires 0.0 <= x <= 1.0
    ensures 0.0 <= Cube(x) <= 1.0
  {
    CubeMonotone(0.0, x);
    CubeMonotone(x, 1.0);
  }
}

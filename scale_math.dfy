/**
 * Scale arithmetic of the multi-line-to-square rotating view.
 *
 * One linear progress value `scale` is turned into staggered per-segment
 * fractions (`DivideScale`) for drawing, and into the signed per-tick step
 * (`UpdateValue`) that drives a node's animation.  The source computes in
 * 32-bit and 64-bit floating point; here every quantity is an exact `real`,
 * and `Math.floor` is `.Floor`.
 */
module ScaleMath {

  /** Number of line squares drawn per node; every State steps with rates 1/Lines. */
  const Lines: int := 4
  /** Base magnitude of one animation step. */
  const ScGap: real := 0.05
  /** Divisor of the floor-based switch between the two rates of `MirrorValue`. */
  const ScDiv: real := 0.51

  function Abs(x: real): real {
    if x < 0.0 then -x else x
  }

  function Sign(x: real): int {
    if x > 0.0 then 1 else if x < 0.0 then -1 else 0
  }

  /** `Math.max`. */
  function Max(x: real, y: real): real {
    if x >= y then x else y
  }

  /** `Math.min`. */
  function Min(x: real, y: real): real {
    if x <= y then x else y
  }

  /** `Int.inverse`: the reciprocal of `n`. */
  function Inverse(n: int): (r: real)
    requires n != 0
    ensures r * (n as real) == 1.0
    ensures n > 0 ==> r > 0.0
  {
    1.0 / (n as real)
  }

  /** `Float.scaleFactor`: how many whole multiples of ScDiv lie at or below `x`. */
  function ScaleFactor(x: real): (r: real)
    ensures r == (r.Floor as real)
    ensures r * ScDiv <= x < (r + 1.0) * ScDiv
  {
    (x / ScDiv).Floor as real
  }

  /** `Float.maxScale`: progress past the start `i/n` of segment `i`, never below zero. */
  function MaxScale(x: real, i: int, n: int): (r: real)
    requires n != 0
    ensures r >= 0.0
    ensures x <= (i as real) * Inverse(n) ==> r == 0.0
    ensures x >= (i as real) * Inverse(n) ==> r == x - (i as real) * Inverse(n)
  {
    Max(0.0, x - (i as real) * Inverse(n))
  }

  /** Multiplying by a positive `n` keeps the order of two reals, both ways. */
  lemma ScaleOrder(a: real, b: real, n: real)
    requires n > 0.0
    ensures a <= b <==> a * n <= b * n
  {
    if a <= b {
      assert b * n - a * n == (b - a) * n;
      assert (b - a) * n >= 0.0;
    } else {
      assert a * n - b * n == (a - b) * n;
      assert (a - b) * n > 0.0;
    }
  }

  /**
   * The arithmetic of `divideScale` over plain reals, with `c` the reciprocal of
   * `nr > 0`: the progress past the start `ir * c`, capped at one segment length
   * `c` and rescaled by `nr`, is 0 while `x * nr <= ir`, 1 once
   * `x * nr >= ir + 1`, and `x * nr - ir` in between.
   */
  lemma ClampedRamp(x: real, ir: real, c: real, nr: real)
    ensures nr > 0.0 && c * nr == 1.0 ==>
              var r := Min(c, Max(0.0, x - ir * c)) * nr;
              0.0 <= r <= 1.0 &&
              (x * nr <= ir ==> r == 0.0) &&
              (x * nr >= ir + 1.0 ==> r == 1.0) &&
              (ir <= x * nr <= ir + 1.0 ==> r == x * nr - ir)
  {
    if nr > 0.0 && c * nr == 1.0 {
      var d := x - ir * c;
      assert d * nr == x * nr - ir * (c * nr) == x * nr - ir;
      ScaleOrder(c, 0.0, nr);
      assert c > 0.0;
      ScaleOrder(d, 0.0, nr);
      ScaleOrder(c, d, nr);
      ScaleOrder(d, c, nr);
      var l := Min(c, Max(0.0, d));
      if d <= 0.0 {
        assert l == 0.0;
      } else if d >= c {
        assert l == c;
      } else {
        assert l == d;
        ScaleOrder(0.0, d, nr);
      }
    }
  }

  /** The same capped ramp is non-decreasing in `x`. */
  lemma ClampedRampMonotone(x: real, y: real, ir: real, c: real, nr: real)
    requires x <= y && nr > 0.0
    ensures Min(c, Max(0.0, x - ir * c)) * nr <= Min(c, Max(0.0, y - ir * c)) * nr
  {
    var lx, ly := Min(c, Max(0.0, x - ir * c)), Min(c, Max(0.0, y - ir * c));
    assert lx <= ly;
    ScaleOrder(lx, ly, nr);
  }

  /**
   * `Float.divideScale`: the progress of segment `i` of `n` equal segments of
   * [0, 1], itself rescaled to [0, 1]; `DivideScaleShape` says what it is.
   */
  function DivideScale(x: real, i: int, n: int): real
    requires n != 0
  {
    Min(Inverse(n), MaxScale(x, i, n)) * (n as real)
  }

  /**
   * For `n > 0` (where `scale * n <= i` is `scale <= i/n`): `DivideScale` lies
   * in [0, 1], is 0 up to the start of segment `i`, 1 from its end, and the
   * linear ramp `scale * n - i` across it.
   */
  lemma DivideScaleShape(x: real, i: int, n: int)
    requires n > 0
    ensures 0.0 <= DivideScale(x, i, n) <= 1.0
    ensures x * (n as real) <= (i as real) ==> DivideScale(x, i, n) == 0.0
    ensures x * (n as real) >= (i as real) + 1.0 ==> DivideScale(x, i, n) == 1.0
    ensures (i as real) <= x * (n as real) <= (i as real) + 1.0 ==>
              DivideScale(x, i, n) == x * (n as real) - (i as real)
  {
    ClampedRamp(x, i as real, Inverse(n), n as real);
  }

  /**
   * `Float.mirrorValue`: the rate `1/a` before the switch point ScDiv and `1/b`
   * from there on (up to twice ScDiv); beyond that the floor keeps growing and
   * the formula extrapolates linearly.
   */
  function MirrorValue(x: real, a: int, b: int): (r: real)
    requires a != 0 && b != 0
    ensures a == b ==> r == Inverse(a)
    ensures 0.0 <= x < ScDiv ==> r == Inverse(a)
    ensures ScDiv <= x < 2.0 * ScDiv ==> r == Inverse(b)
  {
    var k := ScaleFactor(x);
    (1.0 - k) * Inverse(a) + k * Inverse(b)
  }

  /** `Float.updateValue`: the signed step one animation tick adds to the scale. */
  function UpdateValue(x: real, dir: real, a: int, b: int): (r: real)
    requires a != 0 && b != 0
    ensures dir == 0.0 ==> r == 0.0
    ensures a == b ==> r == dir * ScGap / (a as real)
    ensures a == b && a > 0 ==> Sign(r) == Sign(dir)
    ensures a > 0 && b > 0 && 0.0 <= x < 2.0 * ScDiv ==>
              Sign(r) == Sign(dir) && Abs(r) <= ScGap * Abs(dir) * Max(Inverse(a), Inverse(b))
  {
    var m := MirrorValue(x, a, b);
    // Every branch returns the same value; the cases only bring in the facts
    // of PositiveRateStep for the sign and magnitude clauses.
    if a > 0 && b > 0 && 0.0 <= x < 2.0 * ScDiv then
      PositiveRateStep(m, dir, Max(Inverse(a), Inverse(b)));
      m * dir * ScGap
    else if a == b && a > 0 then
      PositiveRateStep(m, dir, m);
      m * dir * ScGap
    else
      m * dir * ScGap
  }

  /** A step at a positive rate `m` keeps the sign of `dir`, and a larger rate bounds its size. */
  lemma PositiveRateStep(m: real, dir: real, bound: real)
    requires 0.0 < m <= bound
    ensures Sign(m * dir * ScGap) == Sign(dir)
    ensures Abs(m * dir * ScGap) <= ScGap * Abs(dir) * bound
  {
    if dir > 0.0 {
      assert m * dir > 0.0;
      assert m * dir <= bound * dir;
    } else if dir < 0.0 {
      assert m * dir < 0.0;
      assert m * (-dir) <= bound * (-dir);
    }
  }

  /** The switch of `ScaleFactor` happens exactly at ScDiv within [0, 2 * ScDiv). */
  lemma ScaleFactorBands(x: real)
    ensures 0.0 <= x < ScDiv ==> ScaleFactor(x) == 0.0
    ensures ScDiv <= x < 2.0 * ScDiv ==> ScaleFactor(x) == 1.0
  {
  }

  /** `MirrorValue` yields one of its two rates for every scale in [0, 2 * ScDiv). */
  lemma MirrorValueIsOneOfTheRates(x: real, a: int, b: int)
    requires a != 0 && b != 0
    requires 0.0 <= x < 2.0 * ScDiv
    ensures MirrorValue(x, a, b) == Inverse(a) || MirrorValue(x, a, b) == Inverse(b)
  {
  }

  /** `MaxScale` grows with the scale. */
  lemma MaxScaleMonotone(x: real, y: real, i: int, n: int)
    requires n != 0 && x <= y
    ensures MaxScale(x, i, n) <= MaxScale(y, i, n)
  {
  }

  /** `DivideScale` is non-decreasing in the scale. */
  lemma DivideScaleMonotone(x: real, y: real, i: int, n: int)
    requires n > 0 && x <= y
    ensures DivideScale(x, i, n) <= DivideScale(y, i, n)
  {
    ClampedRampMonotone(x, y, i as real, Inverse(n), n as real);
  }

  /**
   * The segments reveal one after the other: segment `i + 1` has started only
   * once segment `i` is complete.
   */
  lemma DivideScaleStaggered(x: real, i: int, n: int)
    requires n > 0
    ensures DivideScale(x, i + 1, n) > 0.0 ==> DivideScale(x, i, n) == 1.0
    ensures DivideScale(x, i, n) < 1.0 ==> DivideScale(x, i + 1, n) == 0.0
  {
    DivideScaleShape(x, i, n);
    DivideScaleShape(x, i + 1, n);
  }
}

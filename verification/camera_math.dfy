/**
 * The arithmetic the camera classes share: `clamp` (written the same way in
 * `CameraBoundary` and in the older `Camera`), `lerp`, and the
 * translate-then-scale transform they apply to a `Graphics2D`. Float
 * arithmetic is modelled over `real`, so rounding is not modelled.
 */
module CameraMath {

  /** `Math.max(min, Math.min(value, max))`. */
  function Clamp(value: real, min: real, max: real): (r: real)
    ensures min <= max ==> min <= r <= max
    ensures min <= value <= max ==> r == value
    ensures value <= min ==> r == min
    ensures max < min ==> r == min
    ensures min <= max <= value ==> r == max
  {
    var upper := if value < max then value else max;
    if min > upper then min else upper
  }

  /** Clamping a clamped value changes nothing. */
  lemma ClampIdempotent(value: real, min: real, max: real)
    ensures Clamp(Clamp(value, min, max), min, max) == Clamp(value, min, max)
  {
  }

  /** `start + alpha * (end - start)`. */
  function Lerp(start: real, end: real, alpha: real): (r: real)
    ensures alpha == 0.0 ==> r == start
    ensures alpha == 1.0 ==> r == end
  {
    start + alpha * (end - start)
  }

  /** What is left of the distance after one step is scaled by `1 - alpha`. */
  lemma LerpRemaining(start: real, end: real, alpha: real)
    ensures end - Lerp(start, end, alpha) == (1.0 - alpha) * (end - start)
  {
    MulDistributes(end - start, 1.0, alpha);
  }

  /** For a factor in [0, 1] the interpolated value lies between the two ends. */
  lemma LerpBetween(start: real, end: real, alpha: real)
    requires 0.0 <= alpha <= 1.0
    ensures start <= end ==> start <= Lerp(start, end, alpha) <= end
    ensures end <= start ==> end <= Lerp(start, end, alpha) <= start
  {
    var step := alpha * (end - start);
    assert Lerp(start, end, alpha) == start + step;
    if start <= end {
      MulBounds(alpha, end - start);
    } else {
      MulBounds(alpha, start - end);
      assert step == -(alpha * (start - end));
    }
  }

  lemma MulBounds(alpha: real, d: real)
    requires 0.0 <= alpha <= 1.0 && 0.0 <= d
    ensures 0.0 <= alpha * d <= d
  {
    assert d - alpha * d == (1.0 - alpha) * d;
  }

  /** Factors of a product may be swapped and regrouped. */
  lemma MulCommutesAssociates(a: real, b: real, c: real)
    ensures a * b == b * a
    ensures (a * b) * c == a * (b * c)
  {
  }

  /** Multiplication distributes over subtraction. */
  lemma MulDistributes(a: real, b: real, c: real)
    ensures a * (b - c) == a * b - a * c
    ensures (b - c) * a == b * a - c * a
  {
  }

  /** A non-zero factor cancels against its division. */
  lemma MulDivCancel(a: real, z: real)
    requires z != 0.0
    ensures z * (a / z) == a
  {
  }

  /**
   * A `Graphics2D` transform built by `translate(translateX, translateY)`
   * followed by `scale(scaleX, scaleY)`.
   */
  datatype Transform = Transform(translateX: real, translateY: real, scaleX: real, scaleY: real)

  /** A point, in world units or in pixels. */
  datatype Point = Point(x: real, y: real)

  /** Where a world point is drawn: scaled first, then translated. */
  function Apply(t: Transform, p: Point): Point
  {
    Point(t.scaleX * p.x + t.translateX, t.scaleY * p.y + t.translateY)
  }
}

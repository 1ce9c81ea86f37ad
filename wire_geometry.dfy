/**
 * The pure geometry of `Wire.cs`: the rational quadratic Bezier sample, the sag-adjusted
 * midpoint, the maximum-length projection of the two anchors, one spring-damper step and
 * the polyline that is written to the line renderer.  Float arithmetic is modelled by
 * exact reals; `Mathf.Pow(x, 2)` is `Pow2(x)`.
 */
module WireGeometry {
  import opened Vectors

  /** The literal 0.0001f of Wire.cs: the coincident-anchor and zero-direction guard. */
  const Epsilon: real := 0.0001
  /** `valueThreshold` and `velocityThreshold` (both 0.01f). */
  const ValueThreshold: real := 0.01
  const VelocityThreshold: real := 0.01
  /** `StartPointWeight` and `EndPointWeight`, fixed at 1. */
  const StartPointWeight: real := 1.0
  const EndPointWeight: real := 1.0

  function Pow2(x: real): real
  {
    x * x
  }

  // ---------------------------------------------------------------------------
  // Rational quadratic Bezier (GetRationalBezierPoint)
  // ---------------------------------------------------------------------------

  function BezierDenominator(t: real, w0: real, w1: real, w2: real): real
  {
    w0 * Pow2(1.0 - t) + 2.0 * w1 * (1.0 - t) * t + w2 * Pow2(t)
  }

  /**
   * The point at parameter `t`: the weighted numerator over the denominator.  Vector3
   * arithmetic is component-wise, so the point is computed one coordinate at a time; the
   * float division by a zero denominator has no real counterpart and is excluded.
   */
  function RationalBezierPoint(p0: Vec3, p1: Vec3, p2: Vec3, t: real, w0: real, w1: real, w2: real): Vec3
    requires BezierDenominator(t, w0, w1, w2) != 0.0
  {
    var denominator := BezierDenominator(t, w0, w1, w2);
    Vec3(BezierNumerator(p0.x, p1.x, p2.x, t, w0, w1, w2) / denominator,
         BezierNumerator(p0.y, p1.y, p2.y, t, w0, w1, w2) / denominator,
         BezierNumerator(p0.z, p1.z, p2.z, t, w0, w1, w2) / denominator)
  }

  /**
   * One coordinate of `wp0 * (1-t)^2 + wp1 * 2 * (1-t) * t + wp2 * t^2`, where `wpk` is the
   * control point scaled by its weight, bracketed as the source evaluates it.
   */
  function BezierNumerator(x0: real, x1: real, x2: real, t: real, w0: real, w1: real, w2: real): real
  {
    (x0 * w0) * Pow2(1.0 - t) + (((x1 * w1) * 2.0) * (1.0 - t)) * t + (x2 * w2) * Pow2(t)
  }

  /** The numerator is the sum of the coordinates weighted by the three Bernstein terms. */
  lemma NumeratorWeighted(x0: real, x1: real, x2: real, t: real, w0: real, w1: real, w2: real)
    ensures BezierNumerator(x0, x1, x2, t, w0, w1, w2)
         == x0 * (w0 * Pow2(1.0 - t)) + x1 * (2.0 * w1 * (1.0 - t) * t) + x2 * (w2 * Pow2(t))
  {
    var u, v := Pow2(1.0 - t), Pow2(t);
    var m := 2.0 * w1 * (1.0 - t) * t;
    Associate(x0, w0, u);
    Associate(x2, w2, v);
    assert (((x1 * w1) * 2.0) * (1.0 - t)) * t == x1 * m;
  }

  lemma Associate(a: real, b: real, c: real)
    ensures (a * b) * c == a * (b * c)
  {
  }

  /** For t in [0, 1] and positive end weights (the middle one non-negative) the denominator is positive. */
  lemma BezierDenominatorPositive(t: real, w0: real, w1: real, w2: real)
    requires 0.0 <= t <= 1.0 && w0 > 0.0 && w1 >= 0.0 && w2 > 0.0
    ensures BezierDenominator(t, w0, w1, w2) > 0.0
  {
    BernsteinNonNegative(t, w0, w1, w2);
    var a, b, c := w0 * Pow2(1.0 - t), 2.0 * w1 * (1.0 - t) * t, w2 * Pow2(t);
    assert BezierDenominator(t, w0, w1, w2) == a + b + c;
    if t == 0.0 {
      assert Pow2(1.0 - t) == 1.0;
      assert a == w0;
    } else {
      MulPositive(t, t);
      assert Pow2(t) > 0.0;
      MulPositive(w2, Pow2(t));
      assert c > 0.0;
    }
  }

  /** Each weighted Bernstein term is non-negative on [0, 1] for non-negative weights. */
  lemma BernsteinNonNegative(t: real, w0: real, w1: real, w2: real)
    requires 0.0 <= t <= 1.0 && w0 >= 0.0 && w1 >= 0.0 && w2 >= 0.0
    ensures w0 * Pow2(1.0 - t) >= 0.0
    ensures 2.0 * w1 * (1.0 - t) * t >= 0.0
    ensures w2 * Pow2(t) >= 0.0
  {
    Square(1.0 - t);
    Square(t);
    NonNegativeProduct(w0, Pow2(1.0 - t));
    NonNegativeProduct(w2, Pow2(t));
    NonNegativeProduct(2.0 * w1, 1.0 - t);
    NonNegativeProduct(2.0 * w1 * (1.0 - t), t);
  }

  /** The sample at t = 0 is exactly the first control point, whatever the other weights. */
  lemma BezierAtStart(p0: Vec3, p1: Vec3, p2: Vec3, w0: real, w1: real, w2: real)
    requires w0 != 0.0
    ensures BezierDenominator(0.0, w0, w1, w2) == w0
    ensures RationalBezierPoint(p0, p1, p2, 0.0, w0, w1, w2) == p0
  {
    NumeratorAtStart(p0.x, p1.x, p2.x, w0, w1, w2);
    NumeratorAtStart(p0.y, p1.y, p2.y, w0, w1, w2);
    NumeratorAtStart(p0.z, p1.z, p2.z, w0, w1, w2);
  }

  lemma NumeratorAtStart(x0: real, x1: real, x2: real, w0: real, w1: real, w2: real)
    requires w0 != 0.0
    ensures BezierDenominator(0.0, w0, w1, w2) == w0
    ensures BezierNumerator(x0, x1, x2, 0.0, w0, w1, w2) / w0 == x0
  {
    assert Pow2(0.0) == 0.0 && Pow2(1.0) == 1.0;
  }

  /** The sample at t = 1 is exactly the last control point, whatever the other weights. */
  lemma BezierAtEnd(p0: Vec3, p1: Vec3, p2: Vec3, w0: real, w1: real, w2: real)
    requires w2 != 0.0
    ensures BezierDenominator(1.0, w0, w1, w2) == w2
    ensures RationalBezierPoint(p0, p1, p2, 1.0, w0, w1, w2) == p2
  {
    NumeratorAtEnd(p0.x, p1.x, p2.x, w0, w1, w2);
    NumeratorAtEnd(p0.y, p1.y, p2.y, w0, w1, w2);
    NumeratorAtEnd(p0.z, p1.z, p2.z, w0, w1, w2);
  }

  lemma NumeratorAtEnd(x0: real, x1: real, x2: real, w0: real, w1: real, w2: real)
    requires w2 != 0.0
    ensures BezierDenominator(1.0, w0, w1, w2) == w2
    ensures BezierNumerator(x0, x1, x2, 1.0, w0, w1, w2) / w2 == x2
  {
    assert Pow2(0.0) == 0.0 && Pow2(1.0) == 1.0;
    assert BezierNumerator(x0, x1, x2, 1.0, w0, w1, w2) == x2 * w2;
  }

  function Min3(a: real, b: real, c: real): real
  {
    Min(a, Min(b, c))
  }

  function Max3(a: real, b: real, c: real): real
  {
    Max(a, Max(b, c))
  }

  /** Every coordinate of `p` lies between the smallest and the largest of that coordinate over a, b, c. */
  ghost predicate InBoundingBox(p: Vec3, a: Vec3, b: Vec3, c: Vec3)
  {
    && Min3(a.x, b.x, c.x) <= p.x <= Max3(a.x, b.x, c.x)
    && Min3(a.y, b.y, c.y) <= p.y <= Max3(a.y, b.y, c.y)
    && Min3(a.z, b.z, c.z) <= p.z <= Max3(a.z, b.z, c.z)
  }

  /**
   * For t in [0, 1] and non-negative weights (end weights positive) the sample is a convex
   * combination of the control points, so it stays inside their bounding box.
   */
  lemma BezierInBoundingBox(p0: Vec3, p1: Vec3, p2: Vec3, t: real, w0: real, w1: real, w2: real)
    requires 0.0 <= t <= 1.0 && w0 > 0.0 && w1 >= 0.0 && w2 > 0.0
    ensures BezierDenominator(t, w0, w1, w2) > 0.0
    ensures InBoundingBox(RationalBezierPoint(p0, p1, p2, t, w0, w1, w2), p0, p1, p2)
  {
    BezierDenominatorPositive(t, w0, w1, w2);
    CoordinateInRange(p0.x, p1.x, p2.x, t, w0, w1, w2);
    CoordinateInRange(p0.y, p1.y, p2.y, t, w0, w1, w2);
    CoordinateInRange(p0.z, p1.z, p2.z, t, w0, w1, w2);
  }

  lemma CoordinateInRange(x0: real, x1: real, x2: real, t: real, w0: real, w1: real, w2: real)
    requires 0.0 <= t <= 1.0 && w0 > 0.0 && w1 >= 0.0 && w2 > 0.0
    requires BezierDenominator(t, w0, w1, w2) > 0.0
    ensures Min3(x0, x1, x2) <= BezierNumerator(x0, x1, x2, t, w0, w1, w2) / BezierDenominator(t, w0, w1, w2) <= Max3(x0, x1, x2)
  {
    BernsteinNonNegative(t, w0, w1, w2);
    NumeratorWeighted(x0, x1, x2, t, w0, w1, w2);
    var a, b, c := w0 * Pow2(1.0 - t), 2.0 * w1 * (1.0 - t) * t, w2 * Pow2(t);
    WeightedQuotient(a, b, c, x0, x1, x2, BezierNumerator(x0, x1, x2, t, w0, w1, w2), BezierDenominator(t, w0, w1, w2));
  }

  lemma WeightedQuotient(a: real, b: real, c: real, x0: real, x1: real, x2: real, n: real, d: real)
    requires a >= 0.0 && b >= 0.0 && c >= 0.0 && d == a + b + c && d > 0.0
    requires n == x0 * a + x1 * b + x2 * c
    ensures Min3(x0, x1, x2) <= n / d <= Max3(x0, x1, x2)
  {
    assert n == a * x0 + b * x1 + c * x2;
    ConvexCombination(a, b, c, x0, x1, x2);
  }

  lemma ConvexCombination(a: real, b: real, c: real, x0: real, x1: real, x2: real)
    requires a >= 0.0 && b >= 0.0 && c >= 0.0 && a + b + c > 0.0
    ensures Min3(x0, x1, x2) <= (a * x0 + b * x1 + c * x2) / (a + b + c) <= Max3(x0, x1, x2)
  {
    var lo, hi := Min3(x0, x1, x2), Max3(x0, x1, x2);
    NonNegativeProduct(a, x0 - lo);
    NonNegativeProduct(b, x1 - lo);
    NonNegativeProduct(c, x2 - lo);
    NonNegativeProduct(a, hi - x0);
    NonNegativeProduct(b, hi - x1);
    NonNegativeProduct(c, hi - x2);
    var n, d := a * x0 + b * x1 + c * x2, a + b + c;
    assert lo * d <= n <= hi * d;
    QuotientBounds(n, d, lo, hi);
  }

  lemma QuotientBounds(n: real, d: real, lo: real, hi: real)
    requires d > 0.0 && lo * d <= n <= hi * d
    ensures lo <= n / d <= hi
  {
    var q := n / d;
    assert q * d == n;
    if q < lo {
      MulPositive(lo - q, d);
      assert false;
    }
    if q > hi {
      MulPositive(q - hi, d);
      assert false;
    }
  }

  lemma NonNegativeProduct(a: real, b: real)
    requires a >= 0.0 && b >= 0.0
    ensures a * b >= 0.0
  {
    if a > 0.0 && b > 0.0 {
      MulPositive(a, b);
    }
  }

  /** The sign of a product, with no precondition, for use inside function bodies. */
  lemma ProductSign(a: real, b: real)
    ensures a >= 0.0 && b >= 0.0 ==> a * b >= 0.0
  {
    if a >= 0.0 && b >= 0.0 {
      NonNegativeProduct(a, b);
    }
  }

  // ---------------------------------------------------------------------------
  // Sag-adjusted midpoint (GetMidPoint)
  // ---------------------------------------------------------------------------

  /**
   * The bell-shaped activation `4t(1 - t)`: zero at both ends of [0, 1], non-negative on it,
   * never above one, and one at t = 1/2.
   */
  function Activation(t: real): (r: real)
    ensures r <= 1.0
    ensures 0.0 <= t <= 1.0 ==> 0.0 <= r
    ensures t == 0.0 || t == 1.0 ==> r == 0.0
    ensures t == 0.5 ==> r == 1.0
  {
    ActivationFacts(t);
    4.0 * t * (1.0 - t)
  }

  lemma ActivationFacts(t: real)
    ensures 4.0 * t * (1.0 - t) <= 1.0
    ensures 0.0 <= t <= 1.0 ==> 4.0 * t * (1.0 - t) >= 0.0
  {
    var a := 2.0 * t - 1.0;
    Square(a);
    ProductSign(t, 1.0 - t);
    assert 1.0 - 4.0 * t * (1.0 - t) == a * a;
  }

  /**
   * The sag a rope of length `L` can have when its anchors are `X` apart, taking the rope as
   * two straight halves: by Pythagoras, sag^2 + (X/2)^2 = (L/2)^2 whenever 0 <= X <= L.
   */
  function GeometricMaxSag(X: real, L: real, sqrt: real -> real): (r: real)
    requires IsSqrt(sqrt)
    ensures r >= 0.0
    ensures 0.0 <= X <= L ==> r * r + (X * 0.5) * (X * 0.5) == (L * 0.5) * (L * 0.5)
    ensures X > L >= 0.0 ==> r == 0.0
  {
    var halfX := X * 0.5;
    var halfL := L * 0.5;
    assert 0.0 <= X <= L ==> halfX * halfX <= halfL * halfL by {
      if 0.0 <= X <= L {
        SquareMonotone(halfX, halfL);
      }
    }
    assert X > L >= 0.0 ==> halfX * halfX > halfL * halfL && sqrt(0.0) == 0.0 by {
      if X > L >= 0.0 {
        MulStrict(halfX, halfL);
        SqrtOfSquare(sqrt, 0.0);
      }
    }
    sqrt(Max(0.0, (halfL * halfL) - (halfX * halfX)))
  }

  /** The sag height: activation at tension X/L times the geometric sag, capped at `maxCurveHeight`. */
  function SagHeight(X: real, L: real, maxCurveHeight: real, sqrt: real -> real): (r: real)
    requires IsSqrt(sqrt) && L > 0.0
    ensures r <= maxCurveHeight
    ensures maxCurveHeight >= 0.0 ==> r >= 0.0
  {
    var t := Clamp01(X / L);
    var activation := Activation(t);
    var geoMaxSag := GeometricMaxSag(X, L, sqrt);
    ProductSign(activation, geoMaxSag);
    Min(activation * geoMaxSag, maxCurveHeight)
  }

  /** `curveDirection`, normalised, or zero when its squared magnitude is below the guard. */
  function SafeCurveDirection(curveDirection: Vec3, sqrt: real -> real): (r: Vec3)
    requires IsSqrt(sqrt)
    ensures SqrMagnitude(curveDirection) < Epsilon ==> r == Zero
    ensures SqrMagnitude(curveDirection) >= Epsilon ==> SqrMagnitude(r) == 1.0
  {
    if SqrMagnitude(curveDirection) < Epsilon then
      Zero
    else
      var m := Magnitude(curveDirection, sqrt);
      assert m > NormalizeEpsilon by {
        if m <= NormalizeEpsilon {
          SquareMonotone(m, NormalizeEpsilon);
        }
      }
      Normalized(curveDirection, sqrt)
  }

  /**
   * The target midpoint of the rope: the point at `midPointPosition` on the segment between
   * the anchors, raised along `curveDirection` by the sag height, except when the anchors
   * (nearly) coincide or are at least `maxWireLength` apart.
   */
  function MidPoint(start: Vec3, end: Vec3, midPointPosition: real, maxWireLength: real,
                    curveDirection: Vec3, maxCurveHeight: real, sqrt: real -> real): Vec3
    requires IsSqrt(sqrt)
  {
    var midpos := Lerp(start, end, midPointPosition);
    var X := Distance(start, end, sqrt);
    var L := maxWireLength;
    if X <= Epsilon || X >= L then
      midpos
    else
      Add(midpos, Scale(SafeCurveDirection(curveDirection, sqrt), SagHeight(X, L, maxCurveHeight, sqrt)))
  }

  /** No offset at all when the anchors (nearly) coincide, are taut, or the direction is degenerate. */
  lemma MidPointWithoutSag(start: Vec3, end: Vec3, midPointPosition: real, maxWireLength: real,
                           curveDirection: Vec3, maxCurveHeight: real, sqrt: real -> real)
    requires IsSqrt(sqrt)
    requires || Distance(start, end, sqrt) <= Epsilon
             || Distance(start, end, sqrt) >= maxWireLength
             || SqrMagnitude(curveDirection) < Epsilon
    ensures MidPoint(start, end, midPointPosition, maxWireLength, curveDirection, maxCurveHeight, sqrt)
         == Lerp(start, end, midPointPosition)
  {
  }

  /**
   * The midpoint lies on the anchors' segment displaced along `curveDirection` by a height in
   * [0, maxCurveHeight].
   */
  lemma MidPointOffsetAlongCurveDirection(start: Vec3, end: Vec3, midPointPosition: real, maxWireLength: real,
                                          curveDirection: Vec3, maxCurveHeight: real, sqrt: real -> real)
    requires IsSqrt(sqrt) && maxCurveHeight >= 0.0
    ensures exists h ::
              && 0.0 <= h <= maxCurveHeight
              && MidPoint(start, end, midPointPosition, maxWireLength, curveDirection, maxCurveHeight, sqrt)
                 == Add(Lerp(start, end, midPointPosition), Scale(SafeCurveDirection(curveDirection, sqrt), h))
  {
    var h := MidPointHeight(start, end, maxWireLength, maxCurveHeight, sqrt);
    MidPointIsLifted(start, end, midPointPosition, maxWireLength, curveDirection, maxCurveHeight, sqrt);
    assert 0.0 <= h <= maxCurveHeight;
  }

  /** The height by which `MidPoint` lifts the base point: the sag height, or zero without sag. */
  function MidPointHeight(start: Vec3, end: Vec3, maxWireLength: real, maxCurveHeight: real, sqrt: real -> real): (h: real)
    requires IsSqrt(sqrt)
    ensures maxCurveHeight >= 0.0 ==> 0.0 <= h <= maxCurveHeight
  {
    var X := Distance(start, end, sqrt);
    if X <= Epsilon || X >= maxWireLength then 0.0 else SagHeight(X, maxWireLength, maxCurveHeight, sqrt)
  }

  lemma MidPointIsLifted(start: Vec3, end: Vec3, midPointPosition: real, maxWireLength: real,
                         curveDirection: Vec3, maxCurveHeight: real, sqrt: real -> real)
    requires IsSqrt(sqrt)
    ensures MidPoint(start, end, midPointPosition, maxWireLength, curveDirection, maxCurveHeight, sqrt)
         == Add(Lerp(start, end, midPointPosition),
                Scale(SafeCurveDirection(curveDirection, sqrt), MidPointHeight(start, end, maxWireLength, maxCurveHeight, sqrt)))
  {
    var base := Lerp(start, end, midPointPosition);
    var dir := SafeCurveDirection(curveDirection, sqrt);
    var X := Distance(start, end, sqrt);
    if X <= Epsilon || X >= maxWireLength {
      assert Add(base, Scale(dir, 0.0)) == base;
    }
  }

  /** The midpoint is never farther than `maxCurveHeight` from the base point on the segment. */
  lemma MidPointOffsetBounded(start: Vec3, end: Vec3, midPointPosition: real, maxWireLength: real,
                              curveDirection: Vec3, maxCurveHeight: real, sqrt: real -> real)
    requires IsSqrt(sqrt) && maxCurveHeight >= 0.0
    ensures SqrMagnitude(Sub(MidPoint(start, end, midPointPosition, maxWireLength, curveDirection, maxCurveHeight, sqrt),
                             Lerp(start, end, midPointPosition)))
         <= maxCurveHeight * maxCurveHeight
  {
    var base := Lerp(start, end, midPointPosition);
    var dir := SafeCurveDirection(curveDirection, sqrt);
    var h := MidPointHeight(start, end, maxWireLength, maxCurveHeight, sqrt);
    MidPointIsLifted(start, end, midPointPosition, maxWireLength, curveDirection, maxCurveHeight, sqrt);
    LiftBounded(base, dir, h, maxCurveHeight);
  }

  lemma LiftBounded(base: Vec3, dir: Vec3, h: real, bound: real)
    requires SqrMagnitude(dir) == 0.0 || SqrMagnitude(dir) == 1.0
    requires 0.0 <= h <= bound
    ensures SqrMagnitude(Sub(Add(base, Scale(dir, h)), base)) <= bound * bound
  {
    assert Sub(Add(base, Scale(dir, h)), base) == Scale(dir, h);
    ScaledSqrMagnitude(dir, h);
    SquareMonotone(h, bound);
    Square(h);
  }

  /**
   * The sag depends only on the anchors' distance, so swapping the anchors and mirroring the
   * midpoint position gives the same midpoint.
   */
  lemma MidPointSwapAnchors(start: Vec3, end: Vec3, midPointPosition: real, maxWireLength: real,
                            curveDirection: Vec3, maxCurveHeight: real, sqrt: real -> real)
    requires IsSqrt(sqrt) && 0.0 <= midPointPosition <= 1.0
    ensures MidPoint(end, start, 1.0 - midPointPosition, maxWireLength, curveDirection, maxCurveHeight, sqrt)
         == MidPoint(start, end, midPointPosition, maxWireLength, curveDirection, maxCurveHeight, sqrt)
  {
    SqrMagnitudeSymmetric(start, end);
    assert Distance(start, end, sqrt) == Distance(end, start, sqrt);
    assert Lerp(end, start, 1.0 - midPointPosition) == Lerp(start, end, midPointPosition);
  }

  // ---------------------------------------------------------------------------
  // Maximum-length constraint (EnforceMaxLength)
  // ---------------------------------------------------------------------------

  datatype AnchorPair = AnchorPair(start: Vec3, end: Vec3)

  /** Whether the projection leaves the anchors where they are. */
  ghost predicate NoCorrection(a: Vec3, b: Vec3, maxWireLength: real, isStartSnapped: bool, isEndSnapped: bool,
                              sqrt: real -> real)
    requires IsSqrt(sqrt)
  {
    var distance := Magnitude(Sub(b, a), sqrt);
    distance <= maxWireLength || distance < Epsilon || (isStartSnapped && isEndSnapped)
  }

  /**
   * The anchor positions after the projection: the excess length is taken out along the
   * start-to-end direction, all of it on the free anchor when one is snapped, half on each
   * when both are free.
   */
  function EnforcedAnchors(a: Vec3, b: Vec3, maxWireLength: real, isStartSnapped: bool, isEndSnapped: bool,
                           sqrt: real -> real): (r: AnchorPair)
    requires IsSqrt(sqrt)
    ensures NoCorrection(a, b, maxWireLength, isStartSnapped, isEndSnapped, sqrt) ==> r == AnchorPair(a, b)
    ensures isStartSnapped ==> r.start == a
    ensures isEndSnapped ==> r.end == b
    ensures !isStartSnapped && !isEndSnapped ==> Sub(r.start, a) == Sub(b, r.end)
  {
    var delta := Sub(b, a);
    var distance := Magnitude(delta, sqrt);
    if distance <= maxWireLength || distance < Epsilon then
      AnchorPair(a, b)
    else
      var dir := Div(delta, distance);
      var excess := distance - maxWireLength;
      if isStartSnapped && isEndSnapped then
        AnchorPair(a, b)
      else
        var wA := if isStartSnapped && !isEndSnapped then 0.0 else if !isStartSnapped && isEndSnapped then 1.0 else 0.5;
        var wB := if isStartSnapped && !isEndSnapped then 1.0 else if !isStartSnapped && isEndSnapped then 0.0 else 0.5;
        AnchorPair(Add(a, Scale(Scale(dir, excess), wA)), Sub(b, Scale(Scale(dir, excess), wB)))
  }

  /** When a correction is made, the new start-to-end vector is the old one rescaled to `maxWireLength`. */
  lemma EnforcedAnchorsDelta(a: Vec3, b: Vec3, maxWireLength: real, isStartSnapped: bool, isEndSnapped: bool,
                             sqrt: real -> real)
    requires IsSqrt(sqrt) && !NoCorrection(a, b, maxWireLength, isStartSnapped, isEndSnapped, sqrt)
    ensures var r := EnforcedAnchors(a, b, maxWireLength, isStartSnapped, isEndSnapped, sqrt);
            var d := Magnitude(Sub(b, a), sqrt);
            d > 0.0 && Sub(r.end, r.start) == Scale(Sub(b, a), maxWireLength / d)
  {
    var d := Magnitude(Sub(b, a), sqrt);
    var wA := if isStartSnapped && !isEndSnapped then 0.0 else if !isStartSnapped && isEndSnapped then 1.0 else 0.5;
    var wB := if isStartSnapped && !isEndSnapped then 1.0 else if !isStartSnapped && isEndSnapped then 0.0 else 0.5;
    MovedPairDelta(a, b, d, maxWireLength, wA, wB);
  }

  /** The shared arithmetic of a correction: moving by weights summing to one rescales `b - a` by `m / d`. */
  lemma MovedPairDelta(a: Vec3, b: Vec3, d: real, m: real, wA: real, wB: real)
    requires d > 0.0 && wA + wB == 1.0
    ensures var shift := Scale(Div(Sub(b, a), d), d - m);
            Sub(Sub(b, Scale(shift, wB)), Add(a, Scale(shift, wA))) == Scale(Sub(b, a), m / d)
  {
    ShrunkCoordinate(a.x, b.x, d, m, wA, wB);
    ShrunkCoordinate(a.y, b.y, d, m, wA, wB);
    ShrunkCoordinate(a.z, b.z, d, m, wA, wB);
  }

  lemma ShrunkCoordinate(a: real, b: real, d: real, m: real, wA: real, wB: real)
    requires d > 0.0 && wA + wB == 1.0
    ensures (b - ((b - a) / d * (d - m)) * wB) - (a + ((b - a) / d * (d - m)) * wA) == (b - a) * (m / d)
  {
    var u := (b - a) / d * (d - m);
    assert u * wA + u * wB == u;
    assert (b - a) / d * (d - m) == (b - a) - (b - a) * (m / d);
  }

  /** When a correction is made and `maxWireLength` is non-negative, the anchors end exactly that far apart. */
  lemma EnforcedAnchorsRestoreLength(a: Vec3, b: Vec3, maxWireLength: real, isStartSnapped: bool, isEndSnapped: bool,
                                     sqrt: real -> real)
    requires IsSqrt(sqrt) && maxWireLength >= 0.0
    requires !NoCorrection(a, b, maxWireLength, isStartSnapped, isEndSnapped, sqrt)
    ensures var r := EnforcedAnchors(a, b, maxWireLength, isStartSnapped, isEndSnapped, sqrt);
            Distance(r.start, r.end, sqrt) == maxWireLength
  {
    var r := EnforcedAnchors(a, b, maxWireLength, isStartSnapped, isEndSnapped, sqrt);
    var delta := Sub(b, a);
    var d := Magnitude(delta, sqrt);
    EnforcedAnchorsDelta(a, b, maxWireLength, isStartSnapped, isEndSnapped, sqrt);
    var k := maxWireLength / d;
    ScaledSqrMagnitude(delta, k);
    assert k * d == maxWireLength;
    assert k * k * (d * d) == maxWireLength * maxWireLength;
    SqrMagnitudeSymmetric(r.start, r.end);
    assert SqrMagnitude(Sub(r.start, r.end)) == maxWireLength * maxWireLength;
    SqrtOfSquare(sqrt, maxWireLength);
  }

  /** The anchors move exactly when they are too far apart, not nearly coincident, and not both snapped. */
  lemma EnforcedAnchorsMoveIffOverLength(a: Vec3, b: Vec3, maxWireLength: real, isStartSnapped: bool, isEndSnapped: bool,
                                         sqrt: real -> real)
    requires IsSqrt(sqrt)
    ensures EnforcedAnchors(a, b, maxWireLength, isStartSnapped, isEndSnapped, sqrt) == AnchorPair(a, b)
        <==> NoCorrection(a, b, maxWireLength, isStartSnapped, isEndSnapped, sqrt)
  {
    if !NoCorrection(a, b, maxWireLength, isStartSnapped, isEndSnapped, sqrt) {
      var r := EnforcedAnchors(a, b, maxWireLength, isStartSnapped, isEndSnapped, sqrt);
      var delta := Sub(b, a);
      var d := Magnitude(delta, sqrt);
      EnforcedAnchorsDelta(a, b, maxWireLength, isStartSnapped, isEndSnapped, sqrt);
      var k := maxWireLength / d;
      assert k != 1.0 by {
        assert k * d == maxWireLength;
      }
      if r == AnchorPair(a, b) {
        assert Sub(r.end, r.start) == delta;
        NonZeroVectorFixedByScale(delta, k);
        SqrtOfSquare(sqrt, 0.0);
        assert false;
      }
    }
  }

  /** Only the zero vector is fixed by a scale factor other than one. */
  lemma NonZeroVectorFixedByScale(v: Vec3, k: real)
    requires Scale(v, k) == v && k != 1.0
    ensures SqrMagnitude(v) == 0.0 * 0.0
  {
    FixedByScale(v.x, k);
    FixedByScale(v.y, k);
    FixedByScale(v.z, k);
  }

  lemma FixedByScale(x: real, k: real)
    requires x * k == x && k != 1.0
    ensures x == 0.0
  {
    var c := k - 1.0;
    assert x * c == 0.0;
    if x != 0.0 {
      var p, q := if x > 0.0 then x else -x, if c > 0.0 then c else -c;
      MulPositive(p, q);
    }
  }

  /**
   * Unless both anchors are snapped, after the projection the anchors are at most
   * `maxWireLength` apart (or, below the guard, less than 0.0001 apart).
   */
  lemma EnforcedAnchorsWithinLength(a: Vec3, b: Vec3, maxWireLength: real, isStartSnapped: bool, isEndSnapped: bool,
                                    sqrt: real -> real)
    requires IsSqrt(sqrt) && maxWireLength >= 0.0 && !(isStartSnapped && isEndSnapped)
    ensures var r := EnforcedAnchors(a, b, maxWireLength, isStartSnapped, isEndSnapped, sqrt);
            Distance(r.start, r.end, sqrt) <= Max(maxWireLength, Epsilon)
  {
    if NoCorrection(a, b, maxWireLength, isStartSnapped, isEndSnapped, sqrt) {
      SqrMagnitudeSymmetric(a, b);
      assert Distance(a, b, sqrt) == Magnitude(Sub(b, a), sqrt);
    } else {
      EnforcedAnchorsRestoreLength(a, b, maxWireLength, isStartSnapped, isEndSnapped, sqrt);
    }
  }

  // ---------------------------------------------------------------------------
  // Spring-damper step (SimulatePhysics)
  // ---------------------------------------------------------------------------

  /** The simulated mid control point: `currentValue` and `currentVelocity`. */
  datatype SpringState = SpringState(value: Vec3, velocity: Vec3)

  /** `Mathf.Max(0, 1 - damping * dt)`: never negative, at most one for non-negative inputs. */
  function DampingFactor(damping: real, dt: real): (r: real)
    ensures r >= 0.0
    ensures damping >= 0.0 && dt >= 0.0 ==> r <= 1.0
    ensures r == 0.0 <==> damping * dt >= 1.0
  {
    ProductSign(damping, dt);
    Max(0.0, 1.0 - damping * dt)
  }

  /**
   * One integration step toward `target`, snapped to rest when both the distance to the
   * target and the speed fall under their thresholds.
   */
  function SpringStep(s: SpringState, target: Vec3, stiffness: real, damping: real, otherPhysicsFactors: Vec3,
                      dt: real, sqrt: real -> real): SpringState
    requires IsSqrt(sqrt)
  {
    var dampingFactor := DampingFactor(damping, dt);
    var acceleration := Scale(Scale(Sub(target, s.value), stiffness), dt);
    var velocity := Add(Add(Scale(s.velocity, dampingFactor), acceleration), otherPhysicsFactors);
    var value := Add(s.value, Scale(velocity, dt));
    if Distance(value, target, sqrt) < ValueThreshold && Magnitude(velocity, sqrt) < VelocityThreshold then
      SpringState(target, Zero)
    else
      SpringState(value, velocity)
  }

  /**
   * The step never ends strictly inside both thresholds: it is either exactly at rest on the
   * target, or at least `ValueThreshold` away from it, or at least `VelocityThreshold` fast.
   */
  lemma SpringStepSnapsToRest(s: SpringState, target: Vec3, stiffness: real, damping: real,
                              otherPhysicsFactors: Vec3, dt: real, sqrt: real -> real)
    requires IsSqrt(sqrt)
    ensures var r := SpringStep(s, target, stiffness, damping, otherPhysicsFactors, dt, sqrt);
            || (r.value == target && r.velocity == Zero)
            || Distance(r.value, target, sqrt) >= ValueThreshold
            || Magnitude(r.velocity, sqrt) >= VelocityThreshold
  {
  }

  /** At rest on the target with no other physics contribution, a step changes nothing. */
  lemma SpringRestIsFixedPoint(target: Vec3, stiffness: real, damping: real, dt: real, sqrt: real -> real)
    requires IsSqrt(sqrt)
    ensures SpringStep(SpringState(target, Zero), target, stiffness, damping, Zero, dt, sqrt) == SpringState(target, Zero)
  {
    SqrtOfSquare(sqrt, 0.0);
    assert Sub(target, target) == Zero;
    assert Scale(Scale(Zero, stiffness), dt) == Zero;
    assert Scale(Zero, DampingFactor(damping, dt)) == Zero;
    assert Add(target, Scale(Zero, dt)) == target;
    assert SqrMagnitude(Zero) == 0.0 * 0.0;
  }

  // ---------------------------------------------------------------------------
  // Polyline sampling (SetSplinePoint)
  // ---------------------------------------------------------------------------

  /** The curve through the anchors and `mid` with end weights 1, at t in [0, 1]. */
  function SamplePoint(start: Vec3, mid: Vec3, end: Vec3, t: real, midPointWeight: real): (r: Vec3)
    requires 0.0 <= t <= 1.0 && midPointWeight >= 0.0
    ensures InBoundingBox(r, start, mid, end)
    ensures t == 0.0 ==> r == start
    ensures t == 1.0 ==> r == end
  {
    BezierInBoundingBox(start, mid, end, t, StartPointWeight, midPointWeight, EndPointWeight);
    BezierAtStart(start, mid, end, StartPointWeight, midPointWeight, EndPointWeight);
    BezierAtEnd(start, mid, end, StartPointWeight, midPointWeight, EndPointWeight);
    RationalBezierPoint(start, mid, end, t, StartPointWeight, midPointWeight, EndPointWeight)
  }

  /** `i / (float)linePoints`. */
  function ParamAt(i: nat, linePoints: nat): (t: real)
    requires i < linePoints
    ensures 0.0 <= t < 1.0
    ensures i == 0 ==> t == 0.0
  {
    var t := i as real / linePoints as real;
    assert t * linePoints as real == i as real;
    assert 0.0 <= t < 1.0 by {
      if t >= 1.0 {
        NonNegativeProduct(t - 1.0, linePoints as real);
      }
      if t < 0.0 {
        MulPositive(-t, linePoints as real);
      }
    }
    t
  }

  /**
   * The `linePoints + 1` positions written to the line renderer: the curve at `i / linePoints`
   * for each i below `linePoints`, then exactly the end anchor.
   */
  function SplinePoints(start: Vec3, mid: Vec3, end: Vec3, linePoints: nat, midPointWeight: real): (r: seq<Vec3>)
    requires midPointWeight >= 0.0
    ensures |r| == linePoints + 1
    ensures r[linePoints] == end
    ensures linePoints > 0 ==> r[0] == start
    ensures forall i :: 0 <= i < |r| ==> InBoundingBox(r[i], start, mid, end)
  {
    seq(linePoints + 1, i requires 0 <= i < linePoints + 1 =>
      if i < linePoints then SamplePoint(start, mid, end, ParamAt(i, linePoints), midPointWeight) else end)
  }
}

/**
 * The slice of Unity's `Vector3` and `Mathf` that the wire geometry uses, over exact reals.
 *
 * `Mathf.Sqrt` cannot be defined here (Dafny's reals have no completeness axiom), so every
 * operation that needs a square root receives it as a parameter `sqrt` that must satisfy
 * `IsSqrt`: for every non-negative argument it returns the non-negative square root.
 */
module Vectors {

  datatype Vec3 = Vec3(x: real, y: real, z: real)

  const Zero: Vec3 := Vec3(0.0, 0.0, 0.0)

  /** What the engine's square root guarantees on the arguments it is given. */
  ghost predicate IsSqrt(sqrt: real -> real)
  {
    forall v :: 0.0 <= v ==> 0.0 <= sqrt(v) && sqrt(v) * sqrt(v) == v
  }

  function Add(a: Vec3, b: Vec3): Vec3
  {
    Vec3(a.x + b.x, a.y + b.y, a.z + b.z)
  }

  function Sub(a: Vec3, b: Vec3): Vec3
  {
    Vec3(a.x - b.x, a.y - b.y, a.z - b.z)
  }

  /** `v * k` (and `k * v`). */
  function Scale(v: Vec3, k: real): Vec3
  {
    Vec3(v.x * k, v.y * k, v.z * k)
  }

  /** `v / k`. */
  function Div(v: Vec3, k: real): Vec3
    requires k != 0.0
  {
    Vec3(v.x / k, v.y / k, v.z / k)
  }

  function SqrMagnitude(v: Vec3): (r: real)
    ensures r >= 0.0
  {
    SumOfSquares(v.x, v.y, v.z);
    v.x * v.x + v.y * v.y + v.z * v.z
  }

  function Magnitude(v: Vec3, sqrt: real -> real): (r: real)
    requires IsSqrt(sqrt)
    ensures r >= 0.0 && r * r == SqrMagnitude(v)
  {
    sqrt(SqrMagnitude(v))
  }

  /** `Vector3.Distance(a, b)`, the magnitude of `a - b`; it is the same both ways round. */
  function Distance(a: Vec3, b: Vec3, sqrt: real -> real): (r: real)
    requires IsSqrt(sqrt)
    ensures r >= 0.0 && r * r == SqrMagnitude(Sub(a, b)) && r * r == SqrMagnitude(Sub(b, a))
  {
    SqrMagnitudeSymmetric(a, b);
    Magnitude(Sub(a, b), sqrt)
  }

  /** Unity's `normalized`: the unit vector, or zero when the magnitude is at most 1e-5. */
  function Normalized(v: Vec3, sqrt: real -> real): (r: Vec3)
    requires IsSqrt(sqrt)
    ensures Magnitude(v, sqrt) > NormalizeEpsilon ==> SqrMagnitude(r) == 1.0
    ensures Magnitude(v, sqrt) <= NormalizeEpsilon ==> r == Zero
  {
    var m := Magnitude(v, sqrt);
    if m > NormalizeEpsilon then
      ScaledSqrMagnitude(v, 1.0 / m);
      Div(v, m)
    else
      Zero
  }

  const NormalizeEpsilon: real := 0.00001

  function Clamp01(t: real): (r: real)
    ensures 0.0 <= r <= 1.0
    ensures 0.0 <= t <= 1.0 ==> r == t
  {
    if t < 0.0 then 0.0 else if t > 1.0 then 1.0 else t
  }

  /** `Vector3.Lerp`, which clamps its parameter to [0, 1]. */
  function Lerp(a: Vec3, b: Vec3, t: real): (r: Vec3)
    ensures t <= 0.0 ==> r == a
    ensures t >= 1.0 ==> r == b
  {
    Add(a, Scale(Sub(b, a), Clamp01(t)))
  }

  function Max(a: real, b: real): real
  {
    if a >= b then a else b
  }

  function Min(a: real, b: real): real
  {
    if a <= b then a else b
  }

  lemma SumOfSquares(a: real, b: real, c: real)
    ensures a * a + b * b + c * c >= 0.0
  {
    Square(a);
    Square(b);
    Square(c);
  }

  lemma SqrMagnitudeSymmetric(a: Vec3, b: Vec3)
    ensures SqrMagnitude(Sub(a, b)) == SqrMagnitude(Sub(b, a))
  {
  }

  lemma ScaledSqrMagnitude(v: Vec3, k: real)
    ensures SqrMagnitude(Scale(v, k)) == k * k * SqrMagnitude(v)
  {
  }

  /** The square root of a square is the absolute value (here: of a non-negative number). */
  lemma SqrtOfSquare(sqrt: real -> real, a: real)
    requires IsSqrt(sqrt) && a >= 0.0
    ensures sqrt(a * a) == a
  {
    var r := sqrt(a * a);
    assert r >= 0.0 && r * r == a * a;
    if r > a {
      MulStrict(r, a);
      assert false;
    } else if r < a {
      MulStrict(a, r);
      assert false;
    }
  }

  /** Squaring is strictly increasing on the non-negative reals. */
  lemma MulStrict(p: real, q: real)
    requires p > q >= 0.0
    ensures p * p > q * q
  {
    MulPositive(p - q, p + q);
    assert p * p - q * q == (p - q) * (p + q);
  }

  /** Squaring is monotone on the non-negative reals. */
  lemma SquareMonotone(p: real, q: real)
    requires 0.0 <= p <= q
    ensures p * p <= q * q
  {
    if p < q {
      MulStrict(q, p);
    }
  }

  lemma Square(a: real)
    ensures a * a >= 0.0
    ensures a != 0.0 ==> a * a > 0.0
  {
    if a > 0.0 {
      MulPositive(a, a);
    } else if a < 0.0 {
      var b := -a;
      MulPositive(b, b);
      assert b * b == a * a;
    }
  }

  lemma MulPositive(a: real, b: real)
    requires a > 0.0 && b > 0.0
    ensures a * b > 0.0
  {
  }
}

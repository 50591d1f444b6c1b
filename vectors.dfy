/**
 * Three-component vectors and triangles: the `Vec3` and `Tri` value types of
 * src/tdutil.rs. Numbers are `real`, an idealisation of `f32`. The square root
 * used by `length` and `normalize` is not modelled: it is passed in as `sqrt`.
 */
module Vectors {

  /** A point or a free vector. */
  datatype Vec3 = Vec3(x: real, y: real, z: real)

  /** A triangle with vertices a, b, c; the winding order fixes the normal's sign. */
  datatype Tri = Tri(a: Vec3, b: Vec3, c: Vec3)

  datatype Option<T> = None | Some(value: T)

  /** Culling bias: a triangle is culled when its normal's dot product with the view direction is below it. */
  const CullBias: real := 0.1

  /** `Vec3::zero`, the origin. */
  function Zero(): Vec3 { Vec3(0.0, 0.0, 0.0) }

  function Add(a: Vec3, b: Vec3): Vec3 {
    Vec3(a.x + b.x, a.y + b.y, a.z + b.z)
  }

  function Sub(a: Vec3, b: Vec3): Vec3 {
    Vec3(a.x - b.x, a.y - b.y, a.z - b.z)
  }

  function Mul(a: Vec3, b: Vec3): Vec3 {
    Vec3(a.x * b.x, a.y * b.y, a.z * b.z)
  }

  /** Component-wise quotient; `real` has no infinities, so every divisor component must be non-zero. */
  function Div(a: Vec3, b: Vec3): (r: Vec3)
    requires b.x != 0.0 && b.y != 0.0 && b.z != 0.0
    ensures Mul(r, b) == a
  {
    Vec3(a.x / b.x, a.y / b.y, a.z / b.z)
  }

  function Dot(a: Vec3, b: Vec3): real {
    a.x * b.x + a.y * b.y + a.z * b.z
  }

  /** Right-handed cross product. */
  function Cross(a: Vec3, b: Vec3): Vec3 {
    Vec3(a.y * b.z - a.z * b.y, a.z * b.x - a.x * b.z, a.x * b.y - a.y * b.x)
  }

  function Scale(v: Vec3, k: real): Vec3 {
    Vec3(v.x * k, v.y * k, v.z * k)
  }

  function Length(v: Vec3, sqrt: real -> real): real {
    sqrt(Dot(v, v))
  }

  /** `sqrt` is a correct square root at q. */
  predicate IsSqrtAt(sqrt: real -> real, q: real) {
    sqrt(q) >= 0.0 && sqrt(q) * sqrt(q) == q
  }

  /**
   * Divides each component by the length. A zero length has no real quotient:
   * in `f32` every component becomes NaN (or an infinity), reported here as None.
   */
  function Normalize(v: Vec3, sqrt: real -> real): (r: Option<Vec3>)
    ensures r.Some? <==> Length(v, sqrt) != 0.0
  {
    var l := Length(v, sqrt);
    if l == 0.0 then None else Some(Vec3(v.x / l, v.y / l, v.z / l))
  }

  /** A normalised vector scaled back by the length is the vector itself. */
  lemma NormalizeScales(v: Vec3, sqrt: real -> real)
    requires Length(v, sqrt) != 0.0
    ensures Scale(Normalize(v, sqrt).value, Length(v, sqrt)) == v
  {
  }

  /** The face normal: normalize(cross(a - b, c - b)). */
  function GetNormal(t: Tri, sqrt: real -> real): Option<Vec3> {
    Normalize(Cross(Sub(t.a, t.b), Sub(t.c, t.b)), sqrt)
  }

  /**
   * True when the normal's dot product with `view` is below CullBias. A normal
   * that is not finite (NaN) compares false, so such a triangle is never culled.
   */
  predicate ShouldBackfaceCull(t: Tri, view: Vec3, sqrt: real -> real) {
    match GetNormal(t, sqrt)
    case Some(n) => Dot(n, view) < CullBias
    case None => false
  }

  /** The zero vector is the unit of `+` and what `a - a` gives. */
  lemma ZeroIsAddUnit(a: Vec3)
    ensures Add(a, Zero()) == a && Add(Zero(), a) == a && Sub(a, a) == Zero()
  {
  }

  lemma SubUndoesAdd(a: Vec3, b: Vec3)
    ensures Sub(Add(a, b), b) == a
  {
  }

  lemma AddUndoesSub(a: Vec3, b: Vec3)
    ensures Add(Sub(a, b), b) == a
  {
  }

  lemma CrossAnticommutative(a: Vec3, b: Vec3)
    ensures Cross(a, b) == Scale(Cross(b, a), -1.0)
  {
  }

  lemma CrossOrthogonal(a: Vec3, b: Vec3)
    ensures Dot(a, Cross(a, b)) == 0.0 && Dot(b, Cross(a, b)) == 0.0
  {
  }

  lemma DotSymmetric(a: Vec3, b: Vec3)
    ensures Dot(a, b) == Dot(b, a)
  {
  }

  lemma MulCommutative(a: Vec3, b: Vec3)
    ensures Mul(a, b) == Mul(b, a)
  {
  }

  lemma MulMonotone(k: real, a: real, b: real)
    requires k > 0.0 && a < b
    ensures k * a < k * b
  {
  }

  lemma MulPositive(a: real, b: real)
    requires a > 0.0 && b > 0.0
    ensures a * b > 0.0
  {
  }

  lemma MulNonPositive(a: real, b: real)
    requires a <= 0.0 && b >= 0.0
    ensures a * b <= 0.0
  {
    if a < 0.0 && b > 0.0 { MulPositive(-a, b); }
  }

  lemma DifferenceOfSquares(a: real, b: real)
    ensures b * b - a * a == (b - a) * (b + a)
  {
  }

  lemma SquareMonotone(a: real, b: real)
    requires a >= 0.0 && b >= 0.0
    ensures a < b <==> a * a < b * b
  {
    DifferenceOfSquares(a, b);
    if a < b {
      MulPositive(b - a, b + a);
    } else {
      MulNonPositive(b - a, b + a);
    }
  }

  /** The threshold comparison on d / l, restated for l = sqrt(q) without the division. */
  lemma ScaledThreshold(d: real, l: real, q: real)
    requires l > 0.0 && l * l == q
    ensures d / l < CullBias <==> (d < 0.0 || d * d < CullBias * CullBias * q)
  {
    var k := CullBias * l;
    assert d / l < CullBias <==> d < k by {
      assert d == (d / l) * l;
      if d / l < CullBias { MulMonotone(l, d / l, CullBias); }
      else { assert CullBias * l <= (d / l) * l; }
    }
    assert k * k == CullBias * CullBias * q;
    if d >= 0.0 {
      SquareMonotone(d, k);
    }
  }

  lemma DotScaled(n: Vec3, l: real, view: Vec3)
    requires l != 0.0
    ensures Dot(Vec3(n.x / l, n.y / l, n.z / l), view) == Dot(n, view) / l
  {
    assert (n.x / l) * view.x == (n.x * view.x) / l;
    assert (n.y / l) * view.y == (n.y * view.y) / l;
    assert (n.z / l) * view.z == (n.z * view.z) / l;
  }

  /** The culling comparison on a normalised vector, stated without the square root. */
  lemma NormalizedBelowBias(n: Vec3, view: Vec3, sqrt: real -> real)
    requires IsSqrtAt(sqrt, Dot(n, n))
    ensures var d := Dot(n, view);
            var q := Dot(n, n);
            (Normalize(n, sqrt).Some? && Dot(Normalize(n, sqrt).value, view) < CullBias)
            <==> (q != 0.0 && (d < 0.0 || d * d < CullBias * CullBias * q))
  {
    var d := Dot(n, view);
    var q := Dot(n, n);
    var l := sqrt(q);
    if l == 0.0 {
      assert q == 0.0;
    } else {
      assert (l * l) / l == l;
      assert q != 0.0;
      DotScaled(n, l, view);
      ScaledThreshold(d, l, q);
    }
  }

  /**
   * With an exact square root, the culling test needs no square root at all:
   * for n = cross(a - b, c - b) and d = n . view, the triangle is culled iff
   * n is not the zero vector and d < 0 or d * d < CullBias^2 * (n . n).
   * A degenerate triangle (n = 0) is drawn.
   */
  lemma CullWithoutSqrt(t: Tri, view: Vec3, sqrt: real -> real)
    requires IsSqrtAt(sqrt, Dot(Cross(Sub(t.a, t.b), Sub(t.c, t.b)), Cross(Sub(t.a, t.b), Sub(t.c, t.b))))
    ensures var n := Cross(Sub(t.a, t.b), Sub(t.c, t.b));
            var d := Dot(n, view);
            var q := Dot(n, n);
            ShouldBackfaceCull(t, view, sqrt) <==> (q != 0.0 && (d < 0.0 || d * d < CullBias * CullBias * q))
  {
    NormalizedBelowBias(Cross(Sub(t.a, t.b), Sub(t.c, t.b)), view, sqrt);
  }

  /** A normal facing the view direction head-on (dot 1) is drawn. */
  lemma FacingIsDrawn(t: Tri, view: Vec3, sqrt: real -> real)
    requires GetNormal(t, sqrt).Some? && Dot(GetNormal(t, sqrt).value, view) == 1.0
    ensures !ShouldBackfaceCull(t, view, sqrt)
  {
  }

  /** A normal facing directly away (dot -1) is culled. */
  lemma FacingAwayIsCulled(t: Tri, view: Vec3, sqrt: real -> real)
    requires GetNormal(t, sqrt).Some? && Dot(GetNormal(t, sqrt).value, view) == -1.0
    ensures ShouldBackfaceCull(t, view, sqrt)
  {
  }

  /** The test is a strict `<`: a dot product of exactly CullBias is drawn. */
  lemma ThresholdIsDrawn(t: Tri, view: Vec3, sqrt: real -> real)
    requires GetNormal(t, sqrt).Some? && Dot(GetNormal(t, sqrt).value, view) == CullBias
    ensures !ShouldBackfaceCull(t, view, sqrt)
  {
  }
}

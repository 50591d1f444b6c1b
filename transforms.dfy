/**
 * `Transform` of src/tdutil.rs: one 4x4 homogeneous matrix, starting at the
 * identity. `translate` ADDS a translation delta (it does not multiply),
 * `rot_x/y/z` right-multiply by a rotation delta and `set_pos` overwrites the
 * translation column. `apply_to_vector` multiplies the matrix by the column
 * (x, y, z, 1) and keeps the first three rows. The cosine and sine of the angle
 * are parameters `c` and `s` of the rotations.
 */
module Transforms {
  import opened Matrices
  import V = Vectors

  /** A transform matrix: logical size 4x4 with every entry stored. */
  predicate Is4x4(m: Matrix) {
    Valid(m) && m.cols == 4 && m.rows == 4
  }

  const IdentityRows: seq<seq<real>> :=
    [[1.0, 0.0, 0.0, 0.0],
     [0.0, 1.0, 0.0, 0.0],
     [0.0, 0.0, 1.0, 0.0],
     [0.0, 0.0, 0.0, 1.0]]

  function Identity(): (m: Matrix)
    ensures Is4x4(m)
    ensures forall y: nat, x: nat :: x < 4 && y < 4 ==> Get(m, x, y) == if x == y then 1.0 else 0.0
  {
    FromRows(IdentityRows)
  }

  function TranslationRows(v: V.Vec3): seq<seq<real>> {
    [[0.0, 0.0, 0.0, v.x],
     [0.0, 0.0, 0.0, v.y],
     [0.0, 0.0, 0.0, v.z],
     [0.0, 0.0, 0.0, 0.0]]
  }

  /** The delta `translate` adds: zero except the last column, which is (v, 0). */
  function TranslationDelta(v: V.Vec3): (m: Matrix)
    ensures Is4x4(m)
    ensures forall y: nat, x: nat :: x < 4 && y < 4 ==>
              Get(m, x, y) == if x == 3 && y == 0 then v.x
                              else if x == 3 && y == 1 then v.y
                              else if x == 3 && y == 2 then v.z
                              else 0.0
  {
    FromRows(TranslationRows(v))
  }

  function RotationXRows(c: real, s: real): seq<seq<real>> {
    [[1.0, 0.0, 0.0, 0.0],
     [0.0, c, -s, 0.0],
     [0.0, s, c, 0.0],
     [0.0, 0.0, 0.0, 1.0]]
  }

  function RotationYRows(c: real, s: real): seq<seq<real>> {
    [[c, 0.0, s, 0.0],
     [0.0, 1.0, 0.0, 0.0],
     [-s, 0.0, c, 0.0],
     [0.0, 0.0, 0.0, 1.0]]
  }

  function RotationZRows(c: real, s: real): seq<seq<real>> {
    [[c, -s, 0.0, 0.0],
     [s, c, 0.0, 0.0],
     [0.0, 0.0, 1.0, 0.0],
     [0.0, 0.0, 0.0, 1.0]]
  }

  /** The rotation deltas; each keeps (0, 0, 0, 1) as its last row. */
  function RotationX(c: real, s: real): (m: Matrix)
    ensures Is4x4(m) && AffineBottom(m)
  {
    FromRows(RotationXRows(c, s))
  }

  function RotationY(c: real, s: real): (m: Matrix)
    ensures Is4x4(m) && AffineBottom(m)
  {
    FromRows(RotationYRows(c, s))
  }

  function RotationZ(c: real, s: real): (m: Matrix)
    ensures Is4x4(m) && AffineBottom(m)
  {
    FromRows(RotationZRows(c, s))
  }

  /** The last row is (0, 0, 0, 1): the matrix maps points (w = 1) to points. */
  predicate AffineBottom(m: Matrix)
    requires Is4x4(m)
  {
    Get(m, 0, 3) == 0.0 && Get(m, 1, 3) == 0.0 && Get(m, 2, 3) == 0.0 && Get(m, 3, 3) == 1.0
  }

  /** `arr([[p.x, p.y, p.z, 1.]]).transpose()`: the point as a homogeneous column. */
  function Column(p: V.Vec3): (col: Matrix)
    ensures Valid(col) && col.cols == 1 && col.rows == 4
    ensures Get(col, 0, 0) == p.x && Get(col, 0, 1) == p.y && Get(col, 0, 2) == p.z && Get(col, 0, 3) == 1.0
  {
    MatTranspose(FromRows([[p.x, p.y, p.z, 1.0]]))
  }

  /** Row y of m applied to the homogeneous point (p, 1). */
  function AffineRow(m: Matrix, y: nat, p: V.Vec3): real
    requires Is4x4(m) && y < 4
  {
    Get(m, 0, y) * p.x + Get(m, 1, y) * p.y + Get(m, 2, y) * p.z + Get(m, 3, y)
  }

  /** The affine map of m, the reference for `apply_to_vector`: component y is m(0,y) x + m(1,y) y + m(2,y) z + m(3,y). */
  function ApplyMatrix(m: Matrix, p: V.Vec3): V.Vec3
    requires Is4x4(m)
  {
    V.Vec3(AffineRow(m, 0, p), AffineRow(m, 1, p), AffineRow(m, 2, p))
  }

  /** Row y of the upper-left 3x3 block of m applied to p (no translation). */
  function LinearRow(m: Matrix, y: nat, p: V.Vec3): real
    requires Is4x4(m) && y < 4
  {
    Get(m, 0, y) * p.x + Get(m, 1, y) * p.y + Get(m, 2, y) * p.z
  }

  /** A product entry with a four-term inner sum, written out. */
  lemma DotEntryFour(a: Matrix, b: Matrix, x2: nat, y1: nat)
    requires Valid(a) && Valid(b) && a.cols == 4 && b.rows == 4 && x2 < b.cols && y1 < a.rows
    ensures DotEntry(a, b, x2, y1) ==
              Get(a, 0, y1) * Get(b, x2, 0) + Get(a, 1, y1) * Get(b, x2, 1) +
              Get(a, 2, y1) * Get(b, x2, 2) + Get(a, 3, y1) * Get(b, x2, 3)
  {
    assert PartialDot(a, b, x2, y1, 1) == Get(a, 0, y1) * Get(b, x2, 0);
    assert PartialDot(a, b, x2, y1, 2) == PartialDot(a, b, x2, y1, 1) + Get(a, 1, y1) * Get(b, x2, 1);
    assert PartialDot(a, b, x2, y1, 3) == PartialDot(a, b, x2, y1, 2) + Get(a, 2, y1) * Get(b, x2, 2);
    assert PartialDot(a, b, x2, y1, 4) == PartialDot(a, b, x2, y1, 3) + Get(a, 3, y1) * Get(b, x2, 3);
  }

  /** Each entry of m . (p, 1) as a column, the product `apply_to_vector` and `point_to_ss` compute, is row y of the affine map. */
  lemma ProductIsAffine(m: Matrix, p: V.Vec3)
    requires Is4x4(m)
    ensures var out := MatMul(m, Column(p));
            out.cols == 1 && out.rows == 4 &&
            Get(out, 0, 0) == AffineRow(m, 0, p) && Get(out, 0, 1) == AffineRow(m, 1, p) &&
            Get(out, 0, 2) == AffineRow(m, 2, p) && Get(out, 0, 3) == AffineRow(m, 3, p)
  {
    var col := Column(p);
    ColumnEntry(m, col, p, 0);
    ColumnEntry(m, col, p, 1);
    ColumnEntry(m, col, p, 2);
    ColumnEntry(m, col, p, 3);
  }

  /** Entry y of m . col, for a column holding (p, 1), is row y of the affine map. */
  lemma ColumnEntry(m: Matrix, col: Matrix, p: V.Vec3, y: nat)
    requires Is4x4(m) && Valid(col) && col.cols == 1 && col.rows == 4 && y < 4
    requires Get(col, 0, 0) == p.x && Get(col, 0, 1) == p.y && Get(col, 0, 2) == p.z && Get(col, 0, 3) == 1.0
    ensures DotEntry(m, col, 0, y) == AffineRow(m, y, p)
  {
    DotEntryFour(m, col, 0, y);
  }

  /** The identity is a left unit of `dot` on four-row matrices. */
  lemma IdentityLeftUnit(b: Matrix)
    requires Valid(b) && b.rows == 4
    ensures var r := MatMul(Identity(), b);
            r.cols == b.cols && r.rows == 4 &&
            forall y: nat, x: nat :: x < b.cols && y < 4 ==> Get(r, x, y) == Get(b, x, y)
  {
    forall y: nat, x: nat | x < b.cols && y < 4
      ensures Get(MatMul(Identity(), b), x, y) == Get(b, x, y)
    {
      DotEntryFour(Identity(), b, x, y);
    }
  }

  /** A fresh transform leaves every point where it is. */
  lemma ApplyIdentity(p: V.Vec3)
    ensures ApplyMatrix(Identity(), p) == p
  {
  }

  /**
   * Because `translate` adds (v, 0) to the last column, it moves every image by v,
   * whatever rotations came before: the offset is in world coordinates, not local ones.
   */
  lemma TranslateAddsOffset(m: Matrix, v: V.Vec3, p: V.Vec3)
    requires Is4x4(m)
    ensures ApplyMatrix(MatAdd(m, TranslationDelta(v)), p) == V.Add(ApplyMatrix(m, p), v)
  {
    var t := MatAdd(m, TranslationDelta(v));
    TranslatedRow(m, v, p, 0);
    TranslatedRow(m, v, p, 1);
    TranslatedRow(m, v, p, 2);
  }

  lemma TranslatedRow(m: Matrix, v: V.Vec3, p: V.Vec3, y: nat)
    requires Is4x4(m) && y < 3
    ensures AffineRow(MatAdd(m, TranslationDelta(v)), y, p) ==
              AffineRow(m, y, p) + (if y == 0 then v.x else if y == 1 then v.y else v.z)
  {
    var d := TranslationDelta(v);
    var t := MatAdd(m, d);
    assert Get(t, 0, y) == Get(m, 0, y);
    assert Get(t, 1, y) == Get(m, 1, y);
    assert Get(t, 2, y) == Get(m, 2, y);
    assert Get(t, 3, y) == Get(m, 3, y) + Get(d, 3, y);
  }

  /** One `translate(v)` from the identity maps p to p + v. */
  lemma TranslateFromIdentity(v: V.Vec3, p: V.Vec3)
    ensures ApplyMatrix(MatAdd(Identity(), TranslationDelta(v)), p) == V.Add(p, v)
  {
    TranslateAddsOffset(Identity(), v, p);
    ApplyIdentity(p);
  }

  /**
   * What `set_pos(v)` leaves in the matrix: entries (3, 0), (3, 1), (3, 2) become
   * v.x, v.y, v.z; the size, the storage shape and every other entry are unchanged.
   */
  function WithPosition(m: Matrix, v: V.Vec3): (r: Matrix)
    requires Is4x4(m)
    ensures Is4x4(r) && |r.values| == |m.values|
    ensures forall y :: 0 <= y < |m.values| ==> |r.values[y]| == |m.values[y]|
    ensures Get(r, 3, 0) == v.x && Get(r, 3, 1) == v.y && Get(r, 3, 2) == v.z
    ensures forall y: nat, x: nat :: InStorage(m, x, y) && !(x == 3 && y < 3) ==> Get(r, x, y) == Get(m, x, y)
  {
    Set(Set(Set(m, 3, 0, v.x), 3, 1, v.y), 3, 2, v.z)
  }

  /** After `set_pos(v)` the transform maps p to (upper-left 3x3 block) . p + v: orientation is kept. */
  lemma SetPosApply(m: Matrix, v: V.Vec3, p: V.Vec3)
    requires Is4x4(m)
    ensures ApplyMatrix(WithPosition(m, v), p) == V.Add(V.Vec3(LinearRow(m, 0, p), LinearRow(m, 1, p), LinearRow(m, 2, p)), v)
  {
    PositionedRow(m, v, p, 0);
    PositionedRow(m, v, p, 1);
    PositionedRow(m, v, p, 2);
  }

  lemma PositionedRow(m: Matrix, v: V.Vec3, p: V.Vec3, y: nat)
    requires Is4x4(m) && y < 3
    ensures AffineRow(WithPosition(m, v), y, p) ==
              LinearRow(m, y, p) + (if y == 0 then v.x else if y == 1 then v.y else v.z)
  {
    var w := WithPosition(m, v);
    assert Get(w, 0, y) == Get(m, 0, y) && Get(w, 1, y) == Get(m, 1, y) && Get(w, 2, y) == Get(m, 2, y);
  }

  /** `set_pos(v)` on a fresh transform acts like one `translate(v)` on a fresh transform. */
  lemma SetPosFromIdentity(v: V.Vec3, p: V.Vec3)
    ensures ApplyMatrix(WithPosition(Identity(), v), p) == V.Add(p, v)
    ensures ApplyMatrix(WithPosition(Identity(), v), p) == ApplyMatrix(MatAdd(Identity(), TranslationDelta(v)), p)
  {
    SetPosApply(Identity(), v, p);
    TranslateFromIdentity(v, p);
  }

  /**
   * Right-multiplying by an affine delta r applies r first: M . r maps p to M (r p).
   * So rotations compose in the object's local frame, in the order they are called.
   */
  lemma ApplyComposed(m: Matrix, r: Matrix, p: V.Vec3)
    requires Is4x4(m) && Is4x4(r) && AffineBottom(r)
    ensures ApplyMatrix(MatMul(m, r), p) == ApplyMatrix(m, ApplyMatrix(r, p))
  {
    var mr := MatMul(m, r);
    var q := ApplyMatrix(r, p);
    ComposedRow(m, r, p, 0);
    ComposedRow(m, r, p, 1);
    ComposedRow(m, r, p, 2);
  }

  lemma ComposedRow(m: Matrix, r: Matrix, p: V.Vec3, y: nat)
    requires Is4x4(m) && Is4x4(r) && AffineBottom(r) && y < 3
    ensures AffineRow(MatMul(m, r), y, p) ==
              AffineRow(m, y, V.Vec3(AffineRow(r, 0, p), AffineRow(r, 1, p), AffineRow(r, 2, p)))
  {
    var mr := MatMul(m, r);
    DotEntryFour(m, r, 0, y);
    DotEntryFour(m, r, 1, y);
    DotEntryFour(m, r, 2, y);
    DotEntryFour(m, r, 3, y);
    ProductRowArithmetic(Get(m, 0, y), Get(m, 1, y), Get(m, 2, y), Get(m, 3, y),
      Get(r, 0, 0), Get(r, 1, 0), Get(r, 2, 0), Get(r, 3, 0),
      Get(r, 0, 1), Get(r, 1, 1), Get(r, 2, 1), Get(r, 3, 1),
      Get(r, 0, 2), Get(r, 1, 2), Get(r, 2, 2), Get(r, 3, 2),
      p.x, p.y, p.z);
  }

  /** The ring identity behind ApplyComposed, for one row a of the left matrix. */
  lemma ProductRowArithmetic(a0: real, a1: real, a2: real, a3: real,
                             r00: real, r10: real, r20: real, r30: real,
                             r01: real, r11: real, r21: real, r31: real,
                             r02: real, r12: real, r22: real, r32: real,
                             px: real, py: real, pz: real)
    ensures (a0 * r00 + a1 * r01 + a2 * r02 + a3 * 0.0) * px
          + (a0 * r10 + a1 * r11 + a2 * r12 + a3 * 0.0) * py
          + (a0 * r20 + a1 * r21 + a2 * r22 + a3 * 0.0) * pz
          + (a0 * r30 + a1 * r31 + a2 * r32 + a3 * 1.0)
         == a0 * (r00 * px + r10 * py + r20 * pz + r30)
          + a1 * (r01 * px + r11 * py + r21 * pz + r31)
          + a2 * (r02 * px + r12 * py + r22 * pz + r32)
          + a3
  {
  }

  lemma ApplyRotationX(c: real, s: real, p: V.Vec3)
    ensures ApplyMatrix(RotationX(c, s), p) == V.Vec3(p.x, c * p.y - s * p.z, s * p.y + c * p.z)
  {
  }

  lemma ApplyRotationY(c: real, s: real, p: V.Vec3)
    ensures ApplyMatrix(RotationY(c, s), p) == V.Vec3(c * p.x + s * p.z, p.y, -s * p.x + c * p.z)
  {
  }

  lemma ApplyRotationZ(c: real, s: real, p: V.Vec3)
    ensures ApplyMatrix(RotationZ(c, s), p) == V.Vec3(c * p.x - s * p.y, s * p.x + c * p.y, p.z)
  {
  }

  /** The planar components of Rz(c, s) applied to (qx, qy) = Rz(c, -s) (x, y), when c * c + s * s == 1. */
  lemma PlanarInverse(c: real, s: real, x: real, y: real, qx: real, qy: real)
    requires c * c + s * s == 1.0
    requires qx == c * x - (-s) * y && qy == (-s) * x + c * y
    ensures c * qx - s * qy == x && s * qx + c * qy == y
  {
    assert c * qx - s * qy == (c * c + s * s) * x;
    assert s * qx + c * qy == (c * c + s * s) * y;
  }

  /** Rz(c, s) takes q to any point whose components are its rotated components. */
  lemma RotationZTakes(c: real, s: real, q: V.Vec3, p: V.Vec3)
    requires c * q.x - s * q.y == p.x && s * q.x + c * q.y == p.y && q.z == p.z
    ensures ApplyMatrix(RotationZ(c, s), q) == p
  {
    ApplyRotationZ(c, s, q);
  }

  /** With c = cos a and s = sin a, Rz(a) undoes Rz(-a) on every point. */
  lemma RotationZInverse(c: real, s: real, p: V.Vec3)
    requires c * c + s * s == 1.0
    ensures ApplyMatrix(RotationZ(c, s), ApplyMatrix(RotationZ(c, -s), p)) == p
  {
    var q := ApplyMatrix(RotationZ(c, -s), p);
    ApplyRotationZ(c, -s, p);
    PlanarInverse(c, s, p.x, p.y, q.x, q.y);
    RotationZTakes(c, s, q, p);
  }

  /** With c = cos a and s = sin a, `rot_z(a)` followed by `rot_z(-a)` maps every point as before. */
  lemma RotationZUndone(m: Matrix, c: real, s: real, p: V.Vec3)
    requires Is4x4(m) && c * c + s * s == 1.0
    ensures ApplyMatrix(MatMul(MatMul(m, RotationZ(c, s)), RotationZ(c, -s)), p) == ApplyMatrix(m, p)
  {
    var m1 := MatMul(m, RotationZ(c, s));
    var q := ApplyMatrix(RotationZ(c, -s), p);
    ApplyComposed(m1, RotationZ(c, -s), p);
    ApplyComposed(m, RotationZ(c, s), q);
    RotationZInverse(c, s, p);
  }

  /** With c = cos a and s = sin a, Rx(a) undoes Rx(-a) on every point: it turns the (y, z) plane. */
  lemma RotationXInverse(c: real, s: real, p: V.Vec3)
    requires c * c + s * s == 1.0
    ensures ApplyMatrix(RotationX(c, s), ApplyMatrix(RotationX(c, -s), p)) == p
  {
    var q := ApplyMatrix(RotationX(c, -s), p);
    ApplyRotationX(c, -s, p);
    PlanarInverse(c, s, p.y, p.z, q.y, q.z);
    ApplyRotationX(c, s, q);
  }

  /** With c = cos a and s = sin a, Ry(a) undoes Ry(-a) on every point: it turns the (z, x) plane. */
  lemma RotationYInverse(c: real, s: real, p: V.Vec3)
    requires c * c + s * s == 1.0
    ensures ApplyMatrix(RotationY(c, s), ApplyMatrix(RotationY(c, -s), p)) == p
  {
    var q := ApplyMatrix(RotationY(c, -s), p);
    ApplyRotationY(c, -s, p);
    PlanarInverse(c, s, p.z, p.x, q.z, q.x);
    ApplyRotationY(c, s, q);
  }

  /** With c = cos a and s = sin a, `rot_x(a)` followed by `rot_x(-a)` maps every point as before. */
  lemma RotationXUndone(m: Matrix, c: real, s: real, p: V.Vec3)
    requires Is4x4(m) && c * c + s * s == 1.0
    ensures ApplyMatrix(MatMul(MatMul(m, RotationX(c, s)), RotationX(c, -s)), p) == ApplyMatrix(m, p)
  {
    var q := ApplyMatrix(RotationX(c, -s), p);
    ApplyComposed(MatMul(m, RotationX(c, s)), RotationX(c, -s), p);
    ApplyComposed(m, RotationX(c, s), q);
    RotationXInverse(c, s, p);
  }

  /** With c = cos a and s = sin a, `rot_y(a)` followed by `rot_y(-a)` maps every point as before. */
  lemma RotationYUndone(m: Matrix, c: real, s: real, p: V.Vec3)
    requires Is4x4(m) && c * c + s * s == 1.0
    ensures ApplyMatrix(MatMul(MatMul(m, RotationY(c, s)), RotationY(c, -s)), p) == ApplyMatrix(m, p)
  {
    var q := ApplyMatrix(RotationY(c, -s), p);
    ApplyComposed(MatMul(m, RotationY(c, s)), RotationY(c, -s), p);
    ApplyComposed(m, RotationY(c, s), q);
    RotationYInverse(c, s, p);
  }

  /** A transform: one 4x4 matrix, updated in place by its methods. */
  class Transform {
    var mat: Matrix

    predicate Valid()
      reads this
    {
      Is4x4(mat)
    }

    /** `Transform::new`: the identity. */
    constructor ()
      ensures Valid() && mat == Identity()
    {
      var identity := FromArr(IdentityRows);
      mat := identity;
    }

    /** `translate(v)`: adds the translation delta; it does not compose by multiplication. */
    method Translate(v: V.Vec3)
      requires Valid()
      modifies this
      ensures Valid() && mat == MatAdd(old(mat), TranslationDelta(v))
    {
      var delta := FromArr(TranslationRows(v));
      mat := Add(mat, delta);
    }

    /** `rot_x(a)` with c = cos a, s = sin a: mat := mat . Rx. */
    method RotX(c: real, s: real)
      requires Valid()
      modifies this
      ensures Valid() && mat == MatMul(old(mat), RotationX(c, s))
    {
      var delta := FromArr(RotationXRows(c, s));
      mat := Dot(mat, delta);
    }

    /** `rot_y(a)` with c = cos a, s = sin a: mat := mat . Ry. */
    method RotY(c: real, s: real)
      requires Valid()
      modifies this
      ensures Valid() && mat == MatMul(old(mat), RotationY(c, s))
    {
      var delta := FromArr(RotationYRows(c, s));
      mat := Dot(mat, delta);
    }

    /** `rot_z(a)` with c = cos a, s = sin a: mat := mat . Rz. */
    method RotZ(c: real, s: real)
      requires Valid()
      modifies this
      ensures Valid() && mat == MatMul(old(mat), RotationZ(c, s))
    {
      var delta := FromArr(RotationZRows(c, s));
      mat := Dot(mat, delta);
    }

    /** `set_pos(v)`: overwrites column 3 of rows 0-2 and nothing else. */
    method SetPos(v: V.Vec3)
      requires Valid()
      modifies this
      ensures Valid() && mat == WithPosition(old(mat), v)
    {
      mat := Set(mat, 3, 0, v.x);
      mat := Set(mat, 3, 1, v.y);
      mat := Set(mat, 3, 2, v.z);
    }

    /** `apply_to_vector(p)`: rows 0-2 of mat . (p.x, p.y, p.z, 1). */
    method ApplyToVector(p: V.Vec3) returns (r: V.Vec3)
      requires Valid()
      ensures r == ApplyMatrix(mat, p)
    {
      var col := FromArr([[p.x, p.y, p.z, 1.0]]);
      col := Transpose(col);
      var out := Dot(mat, col);
      r := V.Vec3(Get(out, 0, 0), Get(out, 0, 1), Get(out, 0, 2));
      ProductIsAffine(mat, p);
    }
  }
}

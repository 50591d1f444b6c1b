/**
 * `Geometry` of src/tdutil.rs: a list of triangles in local coordinates and
 * the transform that places them in the world. `apply_transform` returns the
 * world-space triangles as a new list and leaves the geometry as it was.
 */
module Geometries {
  import opened Vectors
  import opened Matrices
  import opened Transforms

  /** A triangle with each vertex moved by `apply_to_vector` with matrix m. */
  function TransformTri(m: Matrix, t: Tri): Tri
    requires Is4x4(m)
  {
    Tri(ApplyMatrix(m, t.a), ApplyMatrix(m, t.b), ApplyMatrix(m, t.c))
  }

  /** The triangles as `apply_transform` returns them: same order, each vertex transformed. */
  function WorldTris(m: Matrix, tris: seq<Tri>): (r: seq<Tri>)
    requires Is4x4(m)
    ensures |r| == |tris|
  {
    if tris == [] then [] else WorldTris(m, tris[..|tris| - 1]) + [TransformTri(m, tris[|tris| - 1])]
  }

  /** Triangle i of the world list is triangle i of the local list, transformed. */
  lemma {:induction false} WorldTrisAt(m: Matrix, tris: seq<Tri>, i: nat)
    requires Is4x4(m) && i < |tris|
    ensures WorldTris(m, tris)[i] == TransformTri(m, tris[i])
  {
    if i < |tris| - 1 {
      WorldTrisAt(m, tris[..|tris| - 1], i);
    }
  }

  /** Transforming a concatenation transforms each part. */
  lemma WorldTrisAppend(m: Matrix, s: seq<Tri>, t: seq<Tri>)
    requires Is4x4(m)
    ensures WorldTris(m, s + t) == WorldTris(m, s) + WorldTris(m, t)
  {
    forall i | 0 <= i < |s + t|
      ensures WorldTris(m, s + t)[i] == (WorldTris(m, s) + WorldTris(m, t))[i]
    {
      WorldTrisAt(m, s + t, i);
      if i < |s| { WorldTrisAt(m, s, i); } else { WorldTrisAt(m, t, i - |s|); }
    }
  }

  /** A new geometry's identity transform returns its triangles unchanged. */
  lemma WorldTrisIdentity(tris: seq<Tri>)
    ensures WorldTris(Identity(), tris) == tris
  {
    forall i | 0 <= i < |tris|
      ensures WorldTris(Identity(), tris)[i] == tris[i]
    {
      WorldTrisAt(Identity(), tris, i);
      ApplyIdentity(tris[i].a);
      ApplyIdentity(tris[i].b);
      ApplyIdentity(tris[i].c);
    }
  }

  /** After `translate(v)` on a new geometry, every vertex is shifted by v. */
  lemma WorldTrisTranslated(v: Vec3, tris: seq<Tri>)
    ensures var m := MatAdd(Identity(), TranslationDelta(v));
            Is4x4(m) &&
            forall i :: 0 <= i < |tris| ==>
              WorldTris(m, tris)[i] == Tri(Vectors.Add(tris[i].a, v), Vectors.Add(tris[i].b, v), Vectors.Add(tris[i].c, v))
  {
    forall i | 0 <= i < |tris|
      ensures WorldTris(MatAdd(Identity(), TranslationDelta(v)), tris)[i]
              == Tri(Vectors.Add(tris[i].a, v), Vectors.Add(tris[i].b, v), Vectors.Add(tris[i].c, v))
    {
      WorldTrisAt(MatAdd(Identity(), TranslationDelta(v)), tris, i);
      TranslateFromIdentity(v, tris[i].a);
      TranslateFromIdentity(v, tris[i].b);
      TranslateFromIdentity(v, tris[i].c);
    }
  }

  class Geometry {
    var tris: seq<Tri>
    var transform: Transform

    predicate Valid()
      reads this, transform
    {
      transform.Valid()
    }

    /** `Geometry::new`: no triangles and an identity transform of its own. */
    constructor ()
      ensures Valid() && tris == [] && fresh(transform) && transform.mat == Identity()
    {
      tris := [];
      transform := new Transform();
    }

    /** `add_tri`: appends one triangle; the transform is untouched. */
    method AddTri(t: Tri)
      requires Valid()
      modifies this
      ensures Valid() && tris == old(tris) + [t] && transform == old(transform)
    {
      tris := tris + [t];
    }

    /** `add_tris`: appends the triangles in order, one push at a time. */
    method AddTris(ts: seq<Tri>)
      requires Valid()
      modifies this
      ensures Valid() && tris == old(tris) + ts && transform == old(transform)
    {
      for i := 0 to |ts|
        invariant Valid() && tris == old(tris) + ts[..i] && transform == old(transform)
      {
        tris := tris + [ts[i]];
      }
      assert ts[..|ts|] == ts;
    }

    /** `apply_transform`: a transformed copy of the triangles; the geometry itself is not modified. */
    method ApplyTransform() returns (out: seq<Tri>)
      requires Valid()
      ensures out == WorldTris(transform.mat, tris)
    {
      out := tris;
      for i := 0 to |out|
        invariant |out| == |tris|
        invariant forall k :: 0 <= k < i ==> out[k] == TransformTri(transform.mat, tris[k])
        invariant forall k :: i <= k < |out| ==> out[k] == tris[k]
      {
        var a := transform.ApplyToVector(out[i].a);
        var b := transform.ApplyToVector(out[i].b);
        var c := transform.ApplyToVector(out[i].c);
        out := out[i := Tri(a, b, c)];
      }
      forall k | 0 <= k < |tris|
        ensures out[k] == WorldTris(transform.mat, tris)[k]
      {
        WorldTrisAt(transform.mat, tris, k);
      }
    }
  }
}

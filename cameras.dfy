/**
 * `Camera` of src/tdutil.rs: a perspective projection and a render loop that
 * culls every world-space triangle against a look direction and outlines the
 * rest. The SDL canvas is replaced by the sequence of line segments that
 * `render` would draw, in the order it would draw them. The tangent of half
 * the field of view is a parameter `tan`.
 */
module Cameras {
  import opened Vectors
  import opened Matrices
  import opened Transforms
  import opened Geometries

  /* ------------------------------------------------------------ integers */

  const I32Min: int := -0x8000_0000
  const I32Max: int := 0x7fff_ffff

  predicate IsI32(n: int) {
    I32Min <= n <= I32Max
  }

  function Abs(n: int): nat {
    if n < 0 then -n else n
  }

  /** Rust's `/` on i32: the quotient truncated toward zero, so the remainder takes the sign of a. */
  function TruncDiv(a: int, b: int): (q: int)
    requires b != 0
    ensures Abs(a - q * b) < Abs(b)
    ensures a >= 0 ==> a - q * b >= 0
    ensures a < 0 ==> a - q * b <= 0
  {
    var n := Abs(a) / Abs(b);
    var q := if (a < 0) == (b < 0) then n else -n;
    QuotientBracket(Abs(a), Abs(b));
    SignedRemainder(a, b, n, q);
    q
  }

  /** The remainder of the signed quotient is the unsigned remainder, carrying the sign of a. */
  lemma SignedRemainder(a: int, b: int, n: int, q: int)
    requires q == if (a < 0) == (b < 0) then n else -n
    ensures a - q * b == if a < 0 then -(Abs(a) - n * Abs(b)) else Abs(a) - n * Abs(b)
  {
    if b < 0 {
      assert q * b == (-q) * Abs(b);
    } else {
      assert q * b == q * Abs(b);
    }
  }

  /** Euclidean division of naturals brackets the dividend. */
  lemma QuotientBracket(a: nat, b: nat)
    requires b > 0
    ensures 0 <= a - (a / b) * b < b
    ensures a / b <= a
  {
    RemainderBounds(a, b);
    AtMostMultiple(a / b, b);
  }

  lemma RemainderBounds(a: nat, b: nat)
    requires b > 0
    ensures 0 <= a - (a / b) * b < b
  {
  }

  lemma AtMostMultiple(q: nat, b: nat)
    requires b > 0
    ensures q <= q * b
  {
    assert q * b == q + q * (b - 1);
  }

  /** `i32 / i32` panics on a zero divisor and on i32::MIN / -1 (overflow). */
  predicate DivDefined(a: int, b: int) {
    IsI32(a) && IsI32(b) && b != 0 && !(a == I32Min && b == -1)
  }

  /** `res.x / res.y` as computed before the conversion to f32: it fits in i32 and truncates toward zero. */
  function AspectRatio(resX: int, resY: int): (ar: int)
    requires DivDefined(resX, resY)
    ensures IsI32(ar)
    ensures Abs(resX - ar * resY) < Abs(resY)
    ensures resX >= 0 ==> resX - ar * resY >= 0
    ensures resX < 0 ==> resX - ar * resY <= 0
  {
    QuotientBracket(Abs(resX), Abs(resY));
    TruncDiv(resX, resY)
  }

  /** The stock 800x600 window gets aspect ratio 1, not 4/3. */
  lemma AspectRatioLandscape()
    ensures AspectRatio(800, 600) == 1
  {
  }

  /** Every portrait window (0 <= res.x < res.y) gets aspect ratio 0. */
  lemma AspectRatioPortrait(resX: int, resY: int)
    requires 0 <= resX < resY <= I32Max
    ensures AspectRatio(resX, resY) == 0
  {
    ProductBounds(AspectRatio(resX, resY), resY);
  }

  /** A non-zero integer multiple of a positive b is at least b in magnitude. */
  lemma ProductBounds(q: int, b: int)
    requires b > 0
    ensures q >= 1 ==> q * b >= b
    ensures q <= -1 ==> q * b <= -b
  {
    if q >= 1 {
      assert q * b == b + (q - 1) * b;
    } else if q <= -1 {
      assert q * b == -b + (q + 1) * b;
    }
  }

  /** The quotient is truncated, not floored: -800 / 600 is -1. */
  lemma AspectRatioTruncates()
    ensures AspectRatio(-800, 600) == -1
  {
  }

  /**
   * Rust's `f32 as i32`: truncation toward zero, saturating at the i32 bounds.
   * (NaN, which also becomes 0, is handled by the caller.)
   */
  function CastI32(q: real): (r: int)
    ensures IsI32(r)
    ensures q >= 0.0 ==> 0 <= r && r as real <= q && (r == I32Max || q < r as real + 1.0)
    ensures q < 0.0 ==> r <= 0 && q <= r as real && (r == I32Min || r as real - 1.0 < q)
  {
    if q >= I32Max as real then I32Max
    else if q <= I32Min as real then I32Min
    else if q >= 0.0 then q.Floor
    else -((-q).Floor)
  }

  /**
   * One coordinate of `point_to_ss`: `(((n / w + 1) / 2) * res) as i32`. With w = 0
   * the f32 quotient is an infinity of the sign of n (NaN when n = 0); the infinity
   * times res saturates to i32::MAX or i32::MIN, and a NaN (n or res zero) gives 0.
   */
  function PixelCoord(n: real, w: real, res: int): (r: int)
    ensures IsI32(r)
  {
    if w != 0.0 then CastI32(((n / w + 1.0) / 2.0) * res as real)
    else if n == 0.0 || res == 0 then 0
    else if (n > 0.0) == (res > 0) then I32Max
    else I32Min
  }

  /**
   * The perspective divide and conversion of `point_to_ss`, (numerator, w, scale)
   * to a pixel coordinate. The camera takes it as a parameter; PixelCoord is what
   * Rust's f32 arithmetic and `as i32` make of it.
   */
  type PixelMap = (real, real, int) -> int

  /* ---------------------------------------------------------- projection */

  function ProjectionRows(ar: int, vfov: real, near: real, far: real): seq<seq<real>>
    requires ar != 0 && vfov != 0.0 && near != far
  {
    NonZeroProduct(ar as real, vfov);
    [[1.0 / (ar as real * vfov), 0.0, 0.0, 0.0],
     [0.0, 1.0 / vfov, 0.0, 0.0],
     [0.0, 0.0, (-near - far) / (near - far), (2.0 * far * near) / (near - far)],
     [0.0, 0.0, 1.0, 0.0]]
  }

  lemma NonZeroProduct(a: real, b: real)
    requires a != 0.0 && b != 0.0
    ensures a * b != 0.0
  {
    assert (a * b) / b == a;
  }

  /** The matrix `calculate_projection_matrix` stores, for aspect ratio ar and vfov = tan(fov / 2). */
  function ProjectionMatrix(ar: int, vfov: real, near: real, far: real): (m: Matrix)
    requires ar != 0 && vfov != 0.0 && near != far
    ensures Is4x4(m)
  {
    FromRows(ProjectionRows(ar, vfov, near, far))
  }

  /**
   * The clip coordinates of p: x scaled by 1 / (ar vfov), y by 1 / vfov, and the
   * homogeneous w is the depth p.z (so the divide in `point_to_ss` is by p.z).
   */
  lemma ClipCoordinates(ar: int, vfov: real, near: real, far: real, p: Vec3)
    requires ar != 0 && vfov != 0.0 && near != far
    ensures var m := ProjectionMatrix(ar, vfov, near, far);
            AffineRow(m, 0, p) == p.x / (ar as real * vfov) &&
            AffineRow(m, 1, p) == p.y / vfov &&
            AffineRow(m, 2, p) == p.z * ((-near - far) / (near - far)) + (2.0 * far * near) / (near - far) &&
            AffineRow(m, 3, p) == p.z
  {
    var m := ProjectionMatrix(ar, vfov, near, far);
    var rows := ProjectionRows(ar, vfov, near, far);
    FromRowsGet(rows, 0, 0);
    NonZeroProduct(ar as real, vfov);
    assert Get(m, 0, 0) * p.x == p.x / (ar as real * vfov);
    assert Get(m, 1, 1) * p.y == p.y / vfov;
  }

  /* --------------------------------------------------------------- output */

  datatype ScreenPoint = ScreenPoint(x: int, y: int)

  /** One `draw_line(from, to)`. */
  datatype Segment = Segment(from: ScreenPoint, to: ScreenPoint)

  /** Coordinate x of the homogeneous point (p, 1). */
  function Homogeneous(p: Vec3, x: nat): real
    requires x < 4
  {
    if x == 0 then p.x else if x == 1 then p.y else if x == 2 then p.z else 1.0
  }

  /**
   * The first n terms of row y of m . (p, 1), summed in the order `dot` sums them.
   * It is `PartialDot(m, Column(p), 0, y, n)` with the column's entries read off
   * directly (ClipSumIsPartialDot), so that `ScreenOf` does not unfold `MatMul`.
   */
  function ClipSum(m: Matrix, y: nat, p: Vec3, n: nat): real
    requires Is4x4(m) && y < 4 && n <= 4
  {
    if n == 0 then 0.0 else ClipSum(m, y, p, n - 1) + Get(m, n - 1, y) * Homogeneous(p, n - 1)
  }

  /** Row y of proj . (p, 1): the clip coordinate of p on that axis. */
  lemma {:induction false} ClipSumAffine(m: Matrix, y: nat, p: Vec3)
    requires Is4x4(m) && y < 4
    ensures ClipSum(m, y, p, 4) == AffineRow(m, y, p)
  {
    assert ClipSum(m, y, p, 1) == Get(m, 0, y) * p.x;
    assert ClipSum(m, y, p, 2) == Get(m, 0, y) * p.x + Get(m, 1, y) * p.y;
    assert ClipSum(m, y, p, 3) == Get(m, 0, y) * p.x + Get(m, 1, y) * p.y + Get(m, 2, y) * p.z;
  }

  /** ClipSum is the running sum of `dot` on the column `(p, 1)` that `point_to_ss` builds. */
  lemma {:induction false} ClipSumIsPartialDot(m: Matrix, y: nat, p: Vec3, n: nat)
    requires Is4x4(m) && y < 4 && n <= 4
    ensures ClipSum(m, y, p, n) == PartialDot(m, Column(p), 0, y, n)
  {
    if n > 0 {
      ClipSumIsPartialDot(m, y, p, n - 1);
    }
  }

  /** `point_to_ss` as a value: rows 0 and 1 of proj . (p, 1) over row 3 (w), both scaled by res.y. */
  function ScreenOf(proj: Matrix, resY: int, toPixel: PixelMap, p: Vec3): ScreenPoint
    requires Is4x4(proj)
  {
    ScreenPoint(toPixel(ClipSum(proj, 0, p, 4), ClipSum(proj, 3, p, 4), resY),
                toPixel(ClipSum(proj, 1, p, 4), ClipSum(proj, 3, p, 4), resY))
  }

  /** `tri_to_ss` as a value: the screen points of a, b, c in that order. */
  function ScreenTri(proj: Matrix, resY: int, toPixel: PixelMap, t: Tri): seq<ScreenPoint>
    requires Is4x4(proj)
  {
    [ScreenOf(proj, resY, toPixel, t.a), ScreenOf(proj, resY, toPixel, t.b), ScreenOf(proj, resY, toPixel, t.c)]
  }

  /** The three edges `render` draws for screen points p: (p0, p1), (p1, p2), (p2, p0), a closed loop. */
  function Outline(p: seq<ScreenPoint>): (r: seq<Segment>)
    requires |p| == 3
    ensures |r| == 3
  {
    [Segment(p[0], p[1]), Segment(p[1], p[2]), Segment(p[2], p[0])]
  }

  /** Edge i runs from point i to point i + 1 (mod 3): the edges form a closed loop. */
  lemma OutlineCloses(p: seq<ScreenPoint>, i: nat)
    requires |p| == 3 && i < 3
    ensures Outline(p)[i].from == p[i] && Outline(p)[i].to == p[(i + 1) % 3]
  {
  }

  /** A point on the view axis lands at (res.y / 2, res.y / 2) for a positive res.y. */
  lemma CentreOfView(ar: int, vfov: real, near: real, far: real, resY: int, z: real)
    requires ar != 0 && vfov != 0.0 && near != far && 0 < resY <= I32Max && z != 0.0
    ensures ScreenOf(ProjectionMatrix(ar, vfov, near, far), resY, PixelCoord, Vec3(0.0, 0.0, z))
            == ScreenPoint(resY / 2, resY / 2)
  {
    var p := Vec3(0.0, 0.0, z);
    ClipCoordinates(ar, vfov, near, far, p);
    ClipSumAffine(ProjectionMatrix(ar, vfov, near, far), 0, p);
    ClipSumAffine(ProjectionMatrix(ar, vfov, near, far), 1, p);
    ClipSumAffine(ProjectionMatrix(ar, vfov, near, far), 3, p);
    var h := (resY as real) / 2.0;
    assert ((0.0 / z + 1.0) / 2.0) * resY as real == h;
    assert CastI32(h) == resY / 2 by {
      assert (resY / 2) as real <= h < (resY / 2) as real + 1.0;
    }
  }

  /**
   * A point at x = ar vfov z (the right edge of the view volume) lands at column
   * res.y, not res.x: the x axis is scaled by the height.
   */
  lemma RightEdgeAtHeight(ar: int, vfov: real, near: real, far: real, resY: int, p: Vec3)
    requires ar != 0 && vfov != 0.0 && near != far && 0 < resY <= I32Max && p.z != 0.0
    requires p.x == ar as real * vfov * p.z
    ensures ScreenOf(ProjectionMatrix(ar, vfov, near, far), resY, PixelCoord, p).x == resY
  {
    ClipCoordinates(ar, vfov, near, far, p);
    ClipSumAffine(ProjectionMatrix(ar, vfov, near, far), 0, p);
    ClipSumAffine(ProjectionMatrix(ar, vfov, near, far), 3, p);
    NonZeroProduct(ar as real, vfov);
    var k := ar as real * vfov;
    assert p.x / k == p.z;
    assert p.z / p.z == 1.0;
    assert ((p.x / k / p.z + 1.0) / 2.0) * resY as real == resY as real;
  }

  /* ----------------------------------------------------------- render spec */

  /** The segments `draw` emits for each triangle of tris in turn. */
  function Emit(draw: Tri -> seq<Segment>, tris: seq<Tri>): seq<Segment> {
    if tris == [] then [] else Emit(draw, tris[..|tris| - 1]) + draw(tris[|tris| - 1])
  }

  /** The segments `draw` emits for each list of worlds in turn. */
  function EmitAll(draw: Tri -> seq<Segment>, worlds: seq<seq<Tri>>): seq<Segment> {
    if worlds == [] then [] else EmitAll(draw, worlds[..|worlds| - 1]) + Emit(draw, worlds[|worlds| - 1])
  }

  /** The triangles of tris that are not culled, in order. */
  function Kept(culled: Tri -> bool, tris: seq<Tri>): (r: seq<Tri>)
    ensures |r| <= |tris|
  {
    if tris == [] then []
    else Kept(culled, tris[..|tris| - 1]) + (if culled(tris[|tris| - 1]) then [] else [tris[|tris| - 1]])
  }

  function Flatten(worlds: seq<seq<Tri>>): seq<Tri> {
    if worlds == [] then [] else Flatten(worlds[..|worlds| - 1]) + worlds[|worlds| - 1]
  }

  /** What `render` draws for one world triangle: nothing if it is culled, else its outline. */
  function DrawOne(view: Vec3, proj: Matrix, resY: int, toPixel: PixelMap, t: Tri, sqrt: real -> real): seq<Segment>
    requires Is4x4(proj)
  {
    if ShouldBackfaceCull(t, view, sqrt) then [] else Outline(ScreenTri(proj, resY, toPixel, t))
  }

  function Drawer(view: Vec3, proj: Matrix, resY: int, toPixel: PixelMap, sqrt: real -> real): Tri -> seq<Segment>
    requires Is4x4(proj)
  {
    t => DrawOne(view, proj, resY, toPixel, t, sqrt)
  }

  function Culler(view: Vec3, sqrt: real -> real): Tri -> bool {
    t => ShouldBackfaceCull(t, view, sqrt)
  }

  /** What `render` draws for the world triangles of each geometry in turn. */
  function DrawScene(view: Vec3, proj: Matrix, resY: int, toPixel: PixelMap, worlds: seq<seq<Tri>>, sqrt: real -> real): seq<Segment>
    requires Is4x4(proj)
  {
    EmitAll(Drawer(view, proj, resY, toPixel, sqrt), worlds)
  }

  /** The world-space triangles of each geometry, as `apply_transform` returns them. */
  function Worlds(gs: seq<Geometry>): (r: seq<seq<Tri>>)
    requires forall i :: 0 <= i < |gs| ==> gs[i].Valid()
    reads gs, set g | g in gs :: g.transform
    ensures |r| == |gs|
  {
    if gs == [] then []
    else
      var last := gs[|gs| - 1];
      assert last.Valid();
      assert last.transform.Valid();
      Worlds(gs[..|gs| - 1]) + [WorldTris(last.transform.mat, last.tris)]
  }

  /** Worlds(gs) depends only on the geometries and their transforms. */
  twostate lemma WorldsKept(gs: seq<Geometry>)
    requires forall k :: 0 <= k < |gs| ==> old(gs[k].Valid())
    requires forall k :: 0 <= k < |gs| ==> unchanged(gs[k]) && unchanged(old(gs[k].transform))
    ensures forall k :: 0 <= k < |gs| ==> gs[k].Valid()
    ensures Worlds(gs) == old(Worlds(gs))
  {
  }

  /** Entry i of `Worlds(gs)` is what `apply_transform` returns for geometry i. */
  lemma {:induction false} WorldsAt(gs: seq<Geometry>, i: nat)
    requires i < |gs| && forall k :: 0 <= k < |gs| ==> gs[k].Valid()
    ensures gs[i].Valid()
    ensures Worlds(gs)[i] == WorldTris(gs[i].transform.mat, gs[i].tris)
  {
    if i < |gs| - 1 {
      WorldsAt(gs[..|gs| - 1], i);
    }
  }

  /** The direction `render` culls against: `apply_to_vector((0, 0, 1))`, a point, so translation moves it. */
  function LookDir(m: Matrix): Vec3
    requires Is4x4(m)
  {
    ApplyMatrix(m, Vec3(0.0, 0.0, 1.0))
  }

  /* ------------------------------------------------------- render lemmas */

  /** A triangle is kept exactly when it is in tris and not culled. */
  lemma {:induction false} KeptMembers(culled: Tri -> bool, tris: seq<Tri>, t: Tri)
    ensures t in Kept(culled, tris) <==> t in tris && !culled(t)
  {
    if tris != [] {
      var init := tris[..|tris| - 1];
      KeptMembers(culled, init, t);
      assert tris == init + [tris[|tris| - 1]];
    }
  }

  /**
   * When `draw` emits nothing for a culled triangle and three segments `outline(t)`
   * otherwise, the output is three segments per kept triangle, the k-th triple
   * being the outline of the k-th kept triangle.
   */
  lemma {:induction false} EmitTriples(draw: Tri -> seq<Segment>, culled: Tri -> bool, outline: Tri -> seq<Segment>, tris: seq<Tri>)
    requires forall t :: draw(t) == if culled(t) then [] else outline(t)
    requires forall t :: |outline(t)| == 3
    ensures var d := Emit(draw, tris);
            var vis := Kept(culled, tris);
            |d| == 3 * |vis| &&
            forall k :: 0 <= k < |vis| ==> d[3 * k..3 * k + 3] == outline(vis[k])
  {
    if tris != [] {
      var init := tris[..|tris| - 1];
      var last := tris[|tris| - 1];
      EmitTriples(draw, culled, outline, init);
      var d0 := Emit(draw, init);
      var v0 := Kept(culled, init);
      var d := Emit(draw, tris);
      var vis := Kept(culled, tris);
      if !culled(last) {
        assert d == d0 + outline(last);
        assert vis == v0 + [last];
        forall k | 0 <= k < |vis|
          ensures d[3 * k..3 * k + 3] == outline(vis[k])
        {
          if k < |v0| {
            assert d[3 * k..3 * k + 3] == d0[3 * k..3 * k + 3];
          } else {
            assert d[3 * k..3 * k + 3] == outline(last);
          }
        }
      }
    }
  }

  lemma {:induction false} EmitAppend(draw: Tri -> seq<Segment>, s: seq<Tri>, t: seq<Tri>)
    ensures Emit(draw, s + t) == Emit(draw, s) + Emit(draw, t)
    decreases |t|
  {
    if t == [] {
      assert s + t == s;
    } else {
      var init := t[..|t| - 1];
      EmitAppend(draw, s, init);
      assert (s + t)[..|s + t| - 1] == s + init;
    }
  }

  lemma EmitStep(draw: Tri -> seq<Segment>, tris: seq<Tri>, j: nat)
    requires j < |tris|
    ensures Emit(draw, tris[..j + 1]) == Emit(draw, tris[..j]) + draw(tris[j])
  {
    assert tris[..j + 1][..j] == tris[..j];
  }

  /** Appending what `draw` gives triangle j extends the output for the first j triangles to the first j + 1. */
  lemma EmitInto(draw: Tri -> seq<Segment>, tris: seq<Tri>, j: nat, lines: seq<Segment>, before: seq<Segment>, segs: seq<Segment>)
    requires j < |tris| && before == lines + Emit(draw, tris[..j]) && segs == draw(tris[j])
    ensures before + segs == lines + Emit(draw, tris[..j + 1])
  {
    EmitStep(draw, tris, j);
  }

  lemma EmitAllStep(draw: Tri -> seq<Segment>, worlds: seq<seq<Tri>>, i: nat, before: seq<Segment>, after: seq<Segment>)
    requires i < |worlds| && before == EmitAll(draw, worlds[..i]) && after == before + Emit(draw, worlds[i])
    ensures after == EmitAll(draw, worlds[..i + 1])
  {
    assert worlds[..i + 1][..i] == worlds[..i];
  }

  /** Drawing world by world is drawing the concatenation of the worlds. */
  lemma {:induction false} EmitAllFlat(draw: Tri -> seq<Segment>, worlds: seq<seq<Tri>>)
    ensures EmitAll(draw, worlds) == Emit(draw, Flatten(worlds))
  {
    if worlds != [] {
      var init := worlds[..|worlds| - 1];
      EmitAllFlat(draw, init);
      EmitAppend(draw, Flatten(init), worlds[|worlds| - 1]);
    }
  }

  /**
   * The output of `render`, in geometry-then-triangle order: three segments
   * (p0, p1), (p1, p2), (p2, p0) for each world triangle that is not culled, and
   * a triangle is kept exactly when `should_backface_cull` is false for it.
   */
  lemma DrawSceneOutlines(view: Vec3, proj: Matrix, resY: int, toPixel: PixelMap, worlds: seq<seq<Tri>>, sqrt: real -> real)
    requires Is4x4(proj)
    ensures var d := DrawScene(view, proj, resY, toPixel, worlds, sqrt);
            var vis := Kept(Culler(view, sqrt), Flatten(worlds));
            |d| == 3 * |vis| &&
            (forall k :: 0 <= k < |vis| ==> d[3 * k..3 * k + 3] == Outline(ScreenTri(proj, resY, toPixel, vis[k]))) &&
            (forall t :: t in vis <==> t in Flatten(worlds) && !ShouldBackfaceCull(t, view, sqrt))
  {
    var draw := Drawer(view, proj, resY, toPixel, sqrt);
    var culled := Culler(view, sqrt);
    var outline := (t: Tri) => Outline(ScreenTri(proj, resY, toPixel, t));
    EmitAllFlat(draw, worlds);
    EmitTriples(draw, culled, outline, Flatten(worlds));
    forall t | true
      ensures t in Kept(culled, Flatten(worlds)) <==> t in Flatten(worlds) && !ShouldBackfaceCull(t, view, sqrt)
    {
      KeptMembers(culled, Flatten(worlds), t);
    }
  }

  /** After one `translate(v)` from the identity, the look direction is (v.x, v.y, 1 + v.z). */
  lemma LookDirTranslated(v: Vec3)
    ensures LookDir(MatAdd(Identity(), TranslationDelta(v))) == Vec3(v.x, v.y, 1.0 + v.z)
  {
    TranslateFromIdentity(v, Vec3(0.0, 0.0, 1.0));
  }

  /* --------------------------------------------------------------- camera */

  class Camera {
    var resX: int
    var resY: int
    var fov: real
    var near: real
    var far: real
    var projMat: Matrix
    var transform: Transform

    predicate Valid()
      reads this, transform
    {
      transform.Valid() && Is4x4(projMat)
    }

    /**
     * `Camera::new(pos, res, fov)`: near 0.1, far 1000, an identity transform and the
     * projection for the integer aspect ratio. The position argument is not used.
     */
    constructor (pos: Vec3, resX: int, resY: int, fov: real, tan: real -> real)
      requires DivDefined(resX, resY) && AspectRatio(resX, resY) != 0 && tan(fov / 2.0) != 0.0
      ensures Valid() && fresh(transform) && transform.mat == Identity()
      ensures this.resX == resX && this.resY == resY && this.fov == fov
      ensures near == 0.1 && far == 1000.0
      ensures projMat == ProjectionMatrix(AspectRatio(resX, resY), tan(fov / 2.0), 0.1, 1000.0)
    {
      this.resX := resX;
      this.resY := resY;
      this.fov := fov;
      near := 0.1;
      far := 1000.0;
      projMat := New(4, 4);
      transform := new Transform();
      new;
      CalculateProjectionMatrix(tan);
    }

    /** `calculate_projection_matrix`: ar = res.x / res.y in integers, vfov = tan(fov / 2). */
    method CalculateProjectionMatrix(tan: real -> real)
      requires DivDefined(resX, resY) && AspectRatio(resX, resY) != 0 && tan(fov / 2.0) != 0.0 && near != far
      modifies this
      ensures resX == old(resX) && resY == old(resY) && fov == old(fov) && near == old(near) && far == old(far)
      ensures projMat == ProjectionMatrix(AspectRatio(resX, resY), tan(fov / 2.0), near, far)
      ensures transform == old(transform)
    {
      var ar := TruncDiv(resX, resY);
      var vfov := tan(fov / 2.0);
      var m := FromArr(ProjectionRows(ar, vfov, near, far));
      projMat := m;
    }

    /** `point_to_ss`: the projection applied to the column (p, 1), then the divide and the pixel scaling. */
    method PointToSs(p: Vec3, toPixel: PixelMap) returns (r: ScreenPoint)
      requires Valid()
      ensures r == ScreenOf(projMat, resY, toPixel, p)
    {
      var col := FromArr([[p.x, p.y, p.z, 1.0]]);
      col := Transpose(col);
      var out := Matrices.Dot(projMat, col);
      r := ScreenPoint(toPixel(Get(out, 0, 0), Get(out, 0, 3), resY),
                       toPixel(Get(out, 0, 1), Get(out, 0, 3), resY));
      ProductIsAffine(projMat, p);
      ClipSumAffine(projMat, 0, p);
      ClipSumAffine(projMat, 1, p);
      ClipSumAffine(projMat, 3, p);
    }

    /** `tri_to_ss`: a three-slot buffer filled with the screen points of a, b, c. */
    method TriToSs(t: Tri, toPixel: PixelMap) returns (out: seq<ScreenPoint>)
      requires Valid()
      ensures out == ScreenTri(projMat, resY, toPixel, t)
    {
      out := [ScreenPoint(0, 0), ScreenPoint(0, 0), ScreenPoint(0, 0)];
      var p := PointToSs(t.a, toPixel);
      out := out[0 := p];
      p := PointToSs(t.b, toPixel);
      out := out[1 := p];
      p := PointToSs(t.c, toPixel);
      out := out[2 := p];
    }

    /**
     * `render`: for each geometry in order, for each of its world triangles in
     * order, skip it if culled against the look direction, else draw its three edges.
     */
    method Render(geometry: seq<Geometry>, sqrt: real -> real, toPixel: PixelMap) returns (lines: seq<Segment>)
      requires Valid() && forall i :: 0 <= i < |geometry| ==> geometry[i].Valid()
      ensures lines == DrawScene(LookDir(transform.mat), projMat, resY, toPixel, Worlds(geometry), sqrt)
    {
      var look := transform.ApplyToVector(Vec3(0.0, 0.0, 1.0));
      ghost var draw := Drawer(look, projMat, resY, toPixel, sqrt);
      ghost var worlds := Worlds(geometry);
      label Start:
      lines := [];
      for i := 0 to |geometry|
        invariant lines == EmitAll(draw, worlds[..i])
      {
        WorldsAt(geometry, i);
        var tris := geometry[i].ApplyTransform();
        ghost var before := lines;
        lines := DrawTris(look, tris, sqrt, toPixel, lines);
        EmitAllStep(draw, worlds, i, before, lines);
      }
      assert worlds[..|geometry|] == worlds;
      WorldsKept@Start(geometry);
    }

    /** The body of the inner loop of `render`: nothing for a culled triangle, else its three edges. */
    method DrawTriangle(look: Vec3, t: Tri, sqrt: real -> real, toPixel: PixelMap) returns (segs: seq<Segment>)
      requires Valid()
      ensures segs == DrawOne(look, projMat, resY, toPixel, t, sqrt)
    {
      if ShouldBackfaceCull(t, look, sqrt) {
        // `continue`: nothing is drawn for a culled triangle
        segs := [];
      } else {
        var p := TriToSs(t, toPixel);
        segs := Outline(p);
      }
    }

    /** The inner loop of `render`: the world triangles of one geometry, appended to lines. */
    method DrawTris(look: Vec3, tris: seq<Tri>, sqrt: real -> real, toPixel: PixelMap, lines: seq<Segment>) returns (out: seq<Segment>)
      requires Valid()
      ensures out == lines + Emit(Drawer(look, projMat, resY, toPixel, sqrt), tris)
    {
      ghost var draw := Drawer(look, projMat, resY, toPixel, sqrt);
      out := lines;
      for j := 0 to |tris|
        invariant out == lines + Emit(draw, tris[..j])
      {
        var segs := DrawTriangle(look, tris[j], sqrt, toPixel);
        EmitInto(draw, tris, j, lines, out, segs);
        out := out + segs;
      }
      assert tris[..|tris|] == tris;
    }
  }
}

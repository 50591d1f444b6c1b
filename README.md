# bgl `tdutil` in Dafny

A model of `src/tdutil.rs` from bgl, a small wire-frame 3D pipeline written in Rust, with proofs about it. The file has five parts, and each is one Dafny module:

- `Matrices` (matrices.dfy): the dynamic-shape `Matrix`.
  - Storage is `values[row][col]`; the logical size is the pair (cols, rows).
  - It is built by `new`, `from_arr` and `from_fn`, read and written by `get`/`set`, and combined by `add`, `transpose` and `dot`.
  - The model keeps the source's padding quirk. `new(cols, rows)` allocates `rows + 1` rows of `cols + 1` zeros, so every result of `add`, `transpose` and `dot` carries a zero row and a zero column outside its logical size.
- `Vectors` (vectors.dfy): `Vec3` arithmetic, `Tri::get_normal` and `Tri::should_backface_cull`, whose test is a strict `< 0.1` (`CullBias`).
- `Transforms` (transforms.dfy): the `Transform` class, one 4x4 matrix starting at the identity.
  - `translate` adds a delta.
  - `rot_x/y/z` right-multiply by a rotation.
  - `set_pos` overwrites the translation column.
  - `apply_to_vector` multiplies by the column `(x, y, z, 1)`.
- `Geometries` (geometries.dfy): the `Geometry` class (a triangle list plus a transform).
- `Cameras` (cameras.dfy): the `Camera` class: the projection matrix, `point_to_ss`, `tri_to_ss` and `render`.

How the model is built:

- Numbers are `real`, an idealisation of `f32`.
- `Matrix`, `Vec3` and `Tri` are values: in the source each matrix belongs to exactly one variable or field.
- `Transform`, `Geometry` and `Camera` are classes whose methods update their fields in place.
- The operations with loops, `from_arr`, `from_fn`, `dot`, `add_tris`, `apply_transform` and `render`, are methods with those loops. `add` and `transpose` have no loop of their own: they are methods that call `FromFn`, as the source calls `from_fn`. Each method is proved equal to a reference function, such as `FromRows`, `Tabulate`, `MatAdd`, `MatMul`, `WorldTris` or `DrawScene`, and the properties are proved about those functions.
- The SDL canvas becomes the sequence of `Segment`s that `render` would pass to `draw_line`, in the order it would pass them.

What the proofs show about the code as written:

- The integer aspect ratio `res.x / res.y` is 1 for an 800x600 window and 0 for every portrait window (`0 <= res.x < res.y`).
- `point_to_ss` scales both axes by `res.y`: a point on the right edge of the view volume lands at column `res.y`, not `res.x`.
- `translate` adds its offset in world coordinates, whatever rotations came before.
- The look direction of `render` is `apply_to_vector((0, 0, 1))`, a point, so a camera translation moves it.
- A degenerate triangle has a zero cross product. Every comparison with its NaN normal is false, so it is never culled.

Three behaviours of the code that a reader may not expect:

- A dot product of exactly 0.1 is drawn, not culled (`ThresholdIsDrawn`).
- The aspect ratio is an integer quotient.
- A zero cross product is not an error.

## Model

| member | source | states |
|---|---|---|
| Vectors.Zero | src/tdutil.rs:245-251 | the origin (0, 0, 0) |
| Vectors.Add | src/tdutil.rs:337-346 | the component-wise sum; SubUndoesAdd and AddUndoesSub pair it with Sub |
| Vectors.Sub | src/tdutil.rs:348-357 | the component-wise difference |
| Vectors.Mul | src/tdutil.rs:359-368 | the component-wise product; MulCommutative states that it commutes |
| Vectors.Dot | src/tdutil.rs:257-259 | x x' + y y' + z z'; DotSymmetric states that it is symmetric |
| Vectors.Cross | src/tdutil.rs:261-267 | the right-handed cross product; CrossAnticommutative and CrossOrthogonal state its properties |
| Vectors.Length | src/tdutil.rs:253-255 | sqrt(v . v), with the square root a parameter |
| Vectors.GetNormal | src/tdutil.rs:217-222 | normalize(cross(a - b, c - b)); None when that cross product has zero length |
| Vectors.ShouldBackfaceCull | src/tdutil.rs:224-226 | culled iff the normal exists and its dot with the view direction is < CullBias; a None (NaN) normal is drawn |
| Vectors.Div | src/tdutil.rs:370-379 | component-wise quotient: multiplied back by the divisor it gives the dividend (divisor components non-zero) |
| Vectors.Normalize | src/tdutil.rs:313-321 | a normalised vector exists exactly when the length is non-zero |
| Vectors.NormalizeScales | src/tdutil.rs:313-321 | the normalised vector scaled by the length is the original vector |
| Vectors.ZeroIsAddUnit | src/tdutil.rs:245-251 | `Vec3::zero` is the unit of `+` on both sides and is what a - a gives |
| Vectors.SubUndoesAdd | src/tdutil.rs:337-357 | (a + b) - b == a |
| Vectors.AddUndoesSub | src/tdutil.rs:337-357 | (a - b) + b == a |
| Vectors.CrossAnticommutative | src/tdutil.rs:261-267 | cross(a, b) == -cross(b, a) |
| Vectors.CrossOrthogonal | src/tdutil.rs:261-267 | cross(a, b) is orthogonal to both a and b |
| Vectors.DotSymmetric | src/tdutil.rs:257-259 | dot is symmetric |
| Vectors.MulCommutative | src/tdutil.rs:359-368 | component-wise product is commutative |
| Vectors.NormalizedBelowBias | src/tdutil.rs:224-226 | with an exact square root, normalize(n) . view < 0.1 iff n . n != 0 and (d < 0 or d^2 < 0.01 (n . n)), with d = n . view |
| Vectors.CullWithoutSqrt | src/tdutil.rs:217-226 | a triangle is culled iff its cross product n is non-zero and (d < 0 or d^2 < 0.01 (n . n)); a degenerate triangle is drawn |
| Vectors.FacingIsDrawn | src/tdutil.rs:224-226 | a normal with dot 1 against the view direction is not culled |
| Vectors.FacingAwayIsCulled | src/tdutil.rs:224-226 | a normal with dot -1 is culled |
| Vectors.ThresholdIsDrawn | src/tdutil.rs:224-226 | the test is strict: a dot of exactly 0.1 is not culled |
| Matrices.Get | src/tdutil.rs:440-442 | values[y][x], defined only inside the storage |
| Matrices.Set | src/tdutil.rs:444-446 | entry (x, y) becomes v; size, storage shape and every other stored entry are unchanged |
| Matrices.New | src/tdutil.rs:391-406 | size (cols, rows), storage (rows + 1) x (cols + 1), every stored entry zero |
| Matrices.FromRows | src/tdutil.rs:407-426 | size (len a[0], len a), storage exactly that size, entry (x, y) == a[y][x], zero where a shorter row has no value |
| Matrices.FromRowsGet | src/tdutil.rs:407-426 | on rows of equal length every entry reads back as given |
| Matrices.FromArr | src/tdutil.rs:407-426 | the row-by-row counter loop builds exactly FromRows(a) |
| Matrices.Tabulate | src/tdutil.rs:428-438 | size (cols, rows), padded storage, entry (x, y) == f(x, y) |
| Matrices.FromFn | src/tdutil.rs:428-438 | starting from `new` and setting column by column builds exactly Tabulate(cols, rows, f) |
| Matrices.MatAdd | src/tdutil.rs:448-454 | same size as the operands, padded, each entry the sum of theirs |
| Matrices.Add | src/tdutil.rs:448-454 | returns MatAdd(a, b); the size assertion is the precondition |
| Matrices.MatTranspose | src/tdutil.rs:456-458 | size pair swapped, padded, entry (x, y) == m(y, x) |
| Matrices.Transpose | src/tdutil.rs:456-458 | returns MatTranspose(m) |
| Matrices.TransposeTwice | src/tdutil.rs:456-458 | transposing twice restores the size and every logical entry |
| Matrices.TransposeInvolution | src/tdutil.rs:456-458 | on padded storage (any result of new/from_fn) transposing twice is the identity on the whole value |
| Matrices.MatMul | src/tdutil.rs:460-474 | size (b.cols, a.rows), padded, entry (x2, y1) == sum over x1 of a(x1, y1) * b(x2, x1) |
| Matrices.Dot | src/tdutil.rs:460-474 | the triple loop with its running sum builds exactly MatMul(a, b) |
| Matrices.MatMulAssociativeAt | src/tdutil.rs:460-474 | every logical entry of (a . b) . c equals that of a . (b . c) |
| Matrices.MatMulAssociative | src/tdutil.rs:460-474 | `dot` is associative: (a . b) . c == a . (b . c) as whole values, padding included |
| Transforms.Identity | src/tdutil.rs:123-132 | a 4x4 matrix with 1 on the diagonal and 0 elsewhere |
| Transforms.TranslationDelta | src/tdutil.rs:135-140 | zero except the last column, which is (v.x, v.y, v.z, 0) |
| Transforms.RotationX | src/tdutil.rs:149-154 | a 4x4 matrix whose last row is (0, 0, 0, 1); its action is ApplyRotationX |
| Transforms.RotationY | src/tdutil.rs:163-168 | a 4x4 matrix whose last row is (0, 0, 0, 1); its action is ApplyRotationY |
| Transforms.RotationZ | src/tdutil.rs:177-182 | a 4x4 matrix whose last row is (0, 0, 0, 1); its action is ApplyRotationZ |
| Transforms.Column | src/tdutil.rs:196 | `arr([[x, y, z, 1]]).transpose()` is a 1x4 column holding x, y, z, 1 |
| Transforms.ProductIsAffine | src/tdutil.rs:195-202 | each entry of m . (p, 1) is row y of the affine map of m |
| Transforms.IdentityLeftUnit | src/tdutil.rs:123-132 | the identity is a left unit of `dot` on four-row matrices |
| Transforms.ApplyIdentity | src/tdutil.rs:123-132 | a fresh transform maps every point to itself |
| Transforms.TranslateAddsOffset | src/tdutil.rs:134-143 | after translate(v), every image is shifted by v, whatever the matrix was |
| Transforms.TranslateFromIdentity | src/tdutil.rs:134-143 | one translate(v) from the identity maps p to p + v |
| Transforms.WithPosition | src/tdutil.rs:187-193 | entries (3, 0), (3, 1), (3, 2) become v.x, v.y, v.z; every other stored entry is unchanged |
| Transforms.SetPosApply | src/tdutil.rs:187-193 | after set_pos(v), p maps to (upper-left 3x3 block) . p + v |
| Transforms.SetPosFromIdentity | src/tdutil.rs:187-193 | set_pos(v) on a fresh transform maps p to p + v, like one translate(v) |
| Transforms.ApplyComposed | src/tdutil.rs:145-185 | right-multiplying by an affine delta r applies r first: (M . r) p == M (r p) |
| Transforms.ApplyRotationX | src/tdutil.rs:145-157 | Rx(c, s) maps p to (x, c y - s z, s y + c z) |
| Transforms.RotationXInverse | src/tdutil.rs:145-157 | when c^2 + s^2 == 1, Rx(c, s) undoes Rx(c, -s) |
| Transforms.RotationXUndone | src/tdutil.rs:145-157 | rot_x(a) then rot_x(-a) leaves the transform's action on every point unchanged |
| Transforms.ApplyRotationY | src/tdutil.rs:159-171 | Ry(c, s) maps p to (c x + s z, y, -s x + c z) |
| Transforms.RotationYInverse | src/tdutil.rs:159-171 | when c^2 + s^2 == 1, Ry(c, s) undoes Ry(c, -s) |
| Transforms.RotationYUndone | src/tdutil.rs:159-171 | rot_y(a) then rot_y(-a) leaves the transform's action on every point unchanged |
| Transforms.ApplyRotationZ | src/tdutil.rs:173-185 | Rz(c, s) maps p to (c x - s y, s x + c y, z) |
| Transforms.RotationZInverse | src/tdutil.rs:173-185 | when c^2 + s^2 == 1, Rz(c, s) undoes Rz(c, -s) |
| Transforms.RotationZUndone | src/tdutil.rs:173-185 | rot_z(a) then rot_z(-a) leaves the transform's action on every point unchanged |
| Transforms.Transform.constructor | src/tdutil.rs:123-132 | the matrix is the identity |
| Transforms.Transform.Translate | src/tdutil.rs:134-143 | mat becomes old mat + TranslationDelta(v) |
| Transforms.Transform.RotX | src/tdutil.rs:145-157 | mat becomes old mat . Rx(c, s) |
| Transforms.Transform.RotY | src/tdutil.rs:159-171 | mat becomes old mat . Ry(c, s) |
| Transforms.Transform.RotZ | src/tdutil.rs:173-185 | mat becomes old mat . Rz(c, s) |
| Transforms.Transform.SetPos | src/tdutil.rs:187-193 | mat becomes WithPosition(old mat, v) |
| Transforms.Transform.ApplyToVector | src/tdutil.rs:195-202 | the product through from_arr, transpose and dot is the affine map of mat at p |
| Geometries.WorldTrisAt | src/tdutil.rs:94-104 | triangle i of the result is triangle i with each vertex passed through the transform |
| Geometries.WorldTrisAppend | src/tdutil.rs:94-104 | transforming a concatenation transforms each part |
| Geometries.WorldTrisIdentity | src/tdutil.rs:87-104 | with the identity transform of a new geometry, the triangles come back unchanged |
| Geometries.WorldTrisTranslated | src/tdutil.rs:94-104 | after one translate(v), every vertex comes back shifted by v |
| Geometries.Geometry.constructor | src/tdutil.rs:87-92 | no triangles and a fresh identity transform |
| Geometries.Geometry.AddTri | src/tdutil.rs:106-108 | appends exactly one triangle; the transform is untouched and the geometry stays valid |
| Geometries.Geometry.AddTris | src/tdutil.rs:110-114 | appends all given triangles in order; the transform is untouched and the geometry stays valid |
| Geometries.Geometry.ApplyTransform | src/tdutil.rs:94-104 | returns WorldTris(mat, tris); the geometry is not modified |
| Cameras.TruncDiv | src/tdutil.rs:33 | Rust's i32 `/`: the remainder is smaller than the divisor in magnitude and takes the sign of the dividend |
| Cameras.AspectRatio | src/tdutil.rs:33 | res.x / res.y fits in i32 and is truncated toward zero |
| Cameras.AspectRatioLandscape | src/tdutil.rs:33 | 800 / 600 gives 1, not 4/3 |
| Cameras.AspectRatioPortrait | src/tdutil.rs:33 | every portrait window, 0 <= res.x < res.y, gives 0 |
| Cameras.AspectRatioTruncates | src/tdutil.rs:33 | -800 / 600 gives -1 (truncation, not floor) |
| Cameras.CastI32 | src/tdutil.rs:47-48 | `as i32`: in range, truncated toward zero, saturating at the i32 bounds |
| Cameras.PixelCoord | src/tdutil.rs:47-48 | one screen coordinate as f32 arithmetic gives it; always in i32 range |
| Cameras.ProjectionMatrix | src/tdutil.rs:36-41 | the projection is a 4x4 matrix |
| Cameras.ClipCoordinates | src/tdutil.rs:36-41 | x is scaled by 1 / (ar vfov), y by 1 / vfov, and w is the depth z |
| Cameras.ClipSumIsPartialDot | src/tdutil.rs:45 | the sum ScreenOf uses is the running sum of `dot` on the column (p, 1) |
| Cameras.ClipSumAffine | src/tdutil.rs:45 | the sum `dot` forms for row y of proj . (p, 1) is row y of the affine map |
| Cameras.Outline | src/tdutil.rs:72-74 | three segments per drawn triangle |
| Cameras.OutlineCloses | src/tdutil.rs:72-74 | edge i runs from point i to point (i + 1) mod 3: a closed loop |
| Cameras.CentreOfView | src/tdutil.rs:44-52 | a point on the view axis lands at (res.y / 2, res.y / 2) |
| Cameras.RightEdgeAtHeight | src/tdutil.rs:44-52 | a point on the right edge of the view volume lands at column res.y |
| Cameras.WorldsAt | src/tdutil.rs:65-66 | entry i is what apply_transform returns for geometry i |
| Cameras.KeptMembers | src/tdutil.rs:67-70 | a triangle is kept iff it is in the list and is not culled |
| Cameras.EmitTriples | src/tdutil.rs:67-75 | three segments per kept triangle; triple k is the outline of the k-th kept triangle |
| Cameras.EmitAllFlat | src/tdutil.rs:65-76 | drawing geometry by geometry is drawing their concatenated triangles |
| Cameras.DrawSceneOutlines | src/tdutil.rs:62-77 | the output has 3 segments per unculled world triangle, in geometry-then-triangle order, triple k being (p0, p1), (p1, p2), (p2, p0) of that triangle; a triangle is drawn iff should_backface_cull is false |
| Cameras.LookDir | src/tdutil.rs:63-64 | the look direction of render: the camera transform applied to the point (0, 0, 1) |
| Cameras.LookDirTranslated | src/tdutil.rs:63-64 | after one translate(v) of the camera, the look direction is (v.x, v.y, 1 + v.z) |
| Cameras.Camera.constructor | src/tdutil.rs:17-30 | near 0.1, far 1000, identity transform, the projection for the integer aspect ratio |
| Cameras.Camera.CalculateProjectionMatrix | src/tdutil.rs:32-42 | proj_mat becomes the projection for ar = res.x / res.y and vfov = tan(fov / 2); nothing else changes |
| Cameras.Camera.PointToSs | src/tdutil.rs:44-52 | rows 0 and 1 of proj . (p, 1), divided by row 3 and scaled by res.y |
| Cameras.Camera.TriToSs | src/tdutil.rs:54-60 | the screen points of a, b, c in that order |
| Cameras.Camera.DrawTriangle | src/tdutil.rs:68-74 | nothing for a culled triangle, else its outline |
| Cameras.Camera.DrawTris | src/tdutil.rs:67-75 | appends what DrawTriangle gives each triangle, in order |
| Cameras.Camera.Render | src/tdutil.rs:62-77 | the segments equal DrawScene of the look direction over every geometry's world triangles |

## Left out

- SDL: `Canvas::draw_line` and `RenderTarget` are foreign. They are replaced by the returned sequence of `Segment`s, and a drawing error is ignored as the source ignores it. `rect::Point` becomes a pair of `int`s.
- src/main.rs (window, event loop, timing, printing) is not part of this model.
- Trigonometry and square roots are not computed:
  - `cos a`/`sin a` in `rot_x/y/z` are the parameters `c`, `s`.
  - `tan(fov / 2)` comes from a parameter `tan`.
  - `sqrt` in `length`/`normalize` is a parameter `sqrt`. The culling lemmas assume only that it is exact at the one value they use.
- `f32` behaviour (rounding, infinities, NaN):
  - Arithmetic is exact `real` arithmetic.
  - A zero cross product, whose normalised value is all NaN in the source, gives the normal `None`, and such a triangle is not culled, as with NaN.
- Vectors.Div: requires non-zero divisor components, because a `real` has no infinity.
- Cameras.PixelCoord: states only that the coordinate is in i32 range. It is the reference for the f32 divide, scale and `as i32` of `point_to_ss`, and is not connected to the camera.
- Cameras.Camera.PointToSs: takes that divide and conversion as a parameter `toPixel`, so its contract holds for any such mapping rather than for f32's.
- Cameras.Camera.constructor: requires a non-zero aspect ratio, a non-zero `tan(fov / 2)` and an i32 division that does not panic. A portrait window (aspect ratio 0) gives infinite entries in f32, which a `real` cannot represent.
- Panics are preconditions, not modelled error paths:
  - a size vector shorter than two (the model takes two `nat`s);
  - `from_arr` of no rows, or of a row longer than row 0;
  - `get`/`set` outside the storage;
  - the size assertion of `add`;
  - i32 division by zero or overflow.
- Matrices.Dot: the source does not check `a.cols == b.rows`. The model requires it, as every call site in the source satisfies it.
- Matrices are values, so aliasing and the by-value `self` of `transpose` are not modelled.
- `render` is split into three methods:
  - `Render` is the outer loop.
  - `DrawTris` is the loop over one geometry's triangles.
  - `DrawTriangle` is the loop body, where its `continue` becomes an `if`.
- The `pos` argument of `Camera::new` is accepted and unused, as in the source.
- `ToString` for `Vec3` and `Matrix`, the `Clone`/`Debug` derives, `arr`, and the trivial constructors `Vec3::new` and `Tri::new` are not modelled. The last three are the datatype constructors and `FromArr`.
- The inherent `Vec3::add/sub/mul/div` and the operator impls compute the same components. Both are `Add`/`Sub`/`Mul`/`Div`.
- The in-place update of `normalize(&mut self)` is not modelled: `get_normal` calls it on a temporary.
- The `pub` fields of `Camera`, `Geometry` and `Transform` can only be changed through the modelled methods.

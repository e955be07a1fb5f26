/**
 * The pose arithmetic of the reconstruction reader: the quaternion to
 * rotation-matrix formula, the inversion of a world-to-camera pose into a
 * camera-to-world pose and the fixed axis remap (x, y, z) -> (x, -z, y)
 * between the reconstruction's axes (x right, y down, z forward) and the
 * scene's axes (x right, y forward, z up). Floating point is modelled by
 * `real`; the square root used for normalisation is a parameter that is
 * only required to be a square root.
 */
module Geometry {

  datatype Vec3 = Vec3(x: real, y: real, z: real)

  /** A 3x3 matrix given by its rows. */
  datatype Mat3 = Mat3(r0: Vec3, r1: Vec3, r2: Vec3)

  /** A quaternion stored (w, x, y, z), not necessarily of unit length. */
  datatype Quat = Quat(w: real, x: real, y: real, z: real)

  /** A camera pose: the rotation and the translation of a rigid motion. */
  datatype Pose = Pose(rotation: Mat3, translation: Vec3)

  const Zero: Vec3 := Vec3(0.0, 0.0, 0.0)
  const Identity: Mat3 := Diag(1.0)

  /** The reconstruction-to-scene axis remap. */
  const AxisRemap: Mat3 := Mat3(Vec3(1.0, 0.0, 0.0), Vec3(0.0, 0.0, -1.0), Vec3(0.0, 1.0, 0.0))

  function Add(a: Vec3, b: Vec3): Vec3 { Vec3(a.x + b.x, a.y + b.y, a.z + b.z) }
  function Neg(a: Vec3): Vec3 { Vec3(-a.x, -a.y, -a.z) }
  function Scale(s: real, a: Vec3): Vec3 { Vec3(s * a.x, s * a.y, s * a.z) }
  function Dot(a: Vec3, b: Vec3): real { a.x * b.x + a.y * b.y + a.z * b.z }

  /** `s` times the identity matrix. */
  function Diag(s: real): Mat3 { Mat3(Vec3(s, 0.0, 0.0), Vec3(0.0, s, 0.0), Vec3(0.0, 0.0, s)) }

  function Col0(m: Mat3): Vec3 { Vec3(m.r0.x, m.r1.x, m.r2.x) }
  function Col1(m: Mat3): Vec3 { Vec3(m.r0.y, m.r1.y, m.r2.y) }
  function Col2(m: Mat3): Vec3 { Vec3(m.r0.z, m.r1.z, m.r2.z) }

  /** `m.T`. */
  function Transpose(m: Mat3): Mat3 { Mat3(Col0(m), Col1(m), Col2(m)) }

  /** `m @ v`. */
  function MatVec(m: Mat3, v: Vec3): Vec3 { Vec3(Dot(m.r0, v), Dot(m.r1, v), Dot(m.r2, v)) }

  /** `a @ b`. */
  function MatMul(a: Mat3, b: Mat3): Mat3
  {
    Mat3(Vec3(Dot(a.r0, Col0(b)), Dot(a.r0, Col1(b)), Dot(a.r0, Col2(b))),
         Vec3(Dot(a.r1, Col0(b)), Dot(a.r1, Col1(b)), Dot(a.r1, Col2(b))),
         Vec3(Dot(a.r2, Col0(b)), Dot(a.r2, Col1(b)), Dot(a.r2, Col2(b))))
  }

  /** The determinant of the 2x2 matrix with rows (a, b), (c, d). */
  function Minor(a: real, b: real, c: real, d: real): real { a * d - b * c }

  /** The determinant of the matrix with rows (a, b, c), (d, e, f), (g, h, i), expanded along the first row. */
  function Det3(a: real, b: real, c: real, d: real, e: real, f: real, g: real, h: real, i: real): real
  {
    a * Minor(e, f, h, i) + b * Minor(f, d, i, g) + c * Minor(d, e, g, h)
  }

  function Det(m: Mat3): real
  {
    Det3(m.r0.x, m.r0.y, m.r0.z, m.r1.x, m.r1.y, m.r1.z, m.r2.x, m.r2.y, m.r2.z)
  }

  /** Three vectors of unit length, pairwise orthogonal. */
  ghost predicate Orthonormal(a: Vec3, b: Vec3, c: Vec3)
  {
    && Dot(a, a) == 1.0 && Dot(b, b) == 1.0 && Dot(c, c) == 1.0
    && Dot(a, b) == 0.0 && Dot(a, c) == 0.0 && Dot(b, c) == 0.0
  }

  /** Orthonormal rows and columns, determinant 1. */
  ghost predicate IsRotation(m: Mat3)
  {
    Orthonormal(m.r0, m.r1, m.r2) && Orthonormal(Col0(m), Col1(m), Col2(m)) && Det(m) == 1.0
  }

  /** The transpose of a rotation is its inverse on both sides. */
  lemma RotationInverse(m: Mat3)
    requires IsRotation(m)
    ensures MatMul(m, Transpose(m)) == Identity && MatMul(Transpose(m), m) == Identity
  {
    RowGram(m);
    ColumnGram(m);
  }

  lemma RowGram(m: Mat3)
    requires Orthonormal(m.r0, m.r1, m.r2)
    ensures MatMul(m, Transpose(m)) == Identity
  {
    assert Col0(Transpose(m)) == m.r0 && Col1(Transpose(m)) == m.r1 && Col2(Transpose(m)) == m.r2;
  }

  lemma ColumnGram(m: Mat3)
    requires Orthonormal(Col0(m), Col1(m), Col2(m))
    ensures MatMul(Transpose(m), m) == Identity
  {
    assert Transpose(m).r0 == Col0(m) && Transpose(m).r1 == Col1(m) && Transpose(m).r2 == Col2(m);
  }

  /** The transpose of a rotation is a rotation. */
  lemma TransposeRotation(m: Mat3)
    requires IsRotation(m)
    ensures IsRotation(Transpose(m))
  {
    var t := Transpose(m);
    assert Col0(t) == m.r0 && Col1(t) == m.r1 && Col2(t) == m.r2;
    TransposeDet(m.r0.x, m.r0.y, m.r0.z, m.r1.x, m.r1.y, m.r1.z, m.r2.x, m.r2.y, m.r2.z);
  }

  /** Transposing leaves the determinant unchanged. */
  lemma TransposeDet(a: real, b: real, c: real, d: real, e: real, f: real, g: real, h: real, i: real)
    ensures Det3(a, d, g, b, e, h, c, f, i) == Det3(a, b, c, d, e, f, g, h, i)
  {
  }

  /** The remap applied to one point: `colmap_to_blender @ p`. */
  function Remap(p: Vec3): (r: Vec3)
    ensures r == MatVec(AxisRemap, p)
    ensures r.x == p.x && r.y == -p.z && r.z == p.y
  {
    Vec3(p.x, -p.z, p.y)
  }

  /** The remap keeps dot products: it is a rigid change of axes. */
  lemma RemapDot(a: Vec3, b: Vec3)
    ensures Dot(Remap(a), Remap(b)) == Dot(a, b)
  {
  }

  /** The matrix product `colmap_to_blender @ m`: the rows of `m` permuted, one of them negated. */
  function RemapRows(m: Mat3): (r: Mat3)
    ensures r == MatMul(AxisRemap, m)
    ensures Col0(r) == Remap(Col0(m)) && Col1(r) == Remap(Col1(m)) && Col2(r) == Remap(Col2(m))
  {
    Mat3(m.r0, Neg(m.r2), m.r1)
  }

  /** Remapping the axes of a rotation gives a rotation. */
  lemma RemapRowsRotation(m: Mat3)
    requires IsRotation(m)
    ensures IsRotation(RemapRows(m))
  {
    var r := RemapRows(m);
    RemapDot(Col0(m), Col0(m));
    RemapDot(Col1(m), Col1(m));
    RemapDot(Col2(m), Col2(m));
    RemapDot(Col0(m), Col1(m));
    RemapDot(Col0(m), Col2(m));
    RemapDot(Col1(m), Col2(m));
    assert Orthonormal(r.r0, r.r1, r.r2);
    RemapDet(m.r0.x, m.r0.y, m.r0.z, m.r1.x, m.r1.y, m.r1.z, m.r2.x, m.r2.y, m.r2.z);
  }

  /** Negating one row and swapping two rows leaves the determinant unchanged. */
  lemma RemapDet(a: real, b: real, c: real, d: real, e: real, f: real, g: real, h: real, i: real)
    ensures Det3(a, b, c, -g, -h, -i, d, e, f) == Det3(a, b, c, d, e, f, g, h, i)
  {
  }

  lemma AxisRemapIsRotation()
    ensures IsRotation(AxisRemap)
  {
    assert IsRotation(Identity);
    RemapRowsRotation(Identity);
    assert RemapRows(Identity) == AxisRemap;
  }

  /** `m @ (a + b) == m @ a + m @ b`. */
  lemma MatVecAdd(m: Mat3, a: Vec3, b: Vec3)
    ensures MatVec(m, Add(a, b)) == Add(MatVec(m, a), MatVec(m, b))
  {
  }

  /** `(a @ b) @ v == a @ (b @ v)`. */
  lemma MatMulVec(a: Mat3, b: Mat3, v: Vec3)
    ensures MatVec(MatMul(a, b), v) == MatVec(a, MatVec(b, v))
  {
  }

  lemma IdentityVec(v: Vec3)
    ensures MatVec(Identity, v) == v
  {
  }

  ghost predicate IsSqrt(sqrt: real -> real)
  {
    forall x :: 0.0 <= x ==> 0.0 <= sqrt(x) && sqrt(x) * sqrt(x) == x
  }

  function NormSq4(w: real, x: real, y: real, z: real): real { w * w + x * x + y * y + z * z }

  function NormSq(q: Quat): real { NormSq4(q.w, q.x, q.y, q.z) }

  /** The matrix of `quat_to_rotation_matrix` for the already normalised components (w, x, y, z). */
  function RotationFormula(w: real, x: real, y: real, z: real): Mat3
  {
    Mat3(Vec3(1.0 - 2.0*y*y - 2.0*z*z, 2.0*x*y - 2.0*z*w, 2.0*x*z + 2.0*y*w),
         Vec3(2.0*x*y + 2.0*z*w, 1.0 - 2.0*x*x - 2.0*z*z, 2.0*y*z - 2.0*x*w),
         Vec3(2.0*x*z - 2.0*y*w, 2.0*y*z + 2.0*x*w, 1.0 - 2.0*x*x - 2.0*y*y))
  }

  /** The formula with each 1 written as w^2 + x^2 + y^2 + z^2; it agrees with `RotationFormula` on unit quaternions. */
  function Homogeneous(w: real, x: real, y: real, z: real): Mat3
  {
    Mat3(Vec3(w*w + x*x - y*y - z*z, 2.0*x*y - 2.0*z*w, 2.0*x*z + 2.0*y*w),
         Vec3(2.0*x*y + 2.0*z*w, w*w - x*x + y*y - z*z, 2.0*y*z - 2.0*x*w),
         Vec3(2.0*x*z - 2.0*y*w, 2.0*y*z + 2.0*x*w, w*w - x*x - y*y + z*z))
  }

  /** `quat_to_rotation_matrix`: divide the quaternion by its norm, then apply the formula. */
  function QuatToRotation(q: Quat, sqrt: real -> real): (r: Mat3)
    requires IsSqrt(sqrt) && NormSq(q) > 0.0
    ensures IsRotation(r)
  {
    var n := sqrt(NormSq(q));
    NormalizedIsUnit(q, n);
    UnitRotation(q.w / n, q.x / n, q.y / n, q.z / n);
    RotationFormula(q.w / n, q.x / n, q.y / n, q.z / n)
  }

  /**
   * `colmap_to_blender_transform`: the camera-to-world pose of a world-to-camera
   * pose (q, t), in the scene's axes: (M R^T, M (-R^T t)) for R the rotation of q.
   */
  function ColmapToBlender(q: Quat, t: Vec3, sqrt: real -> real): (pose: Pose)
    requires IsSqrt(sqrt) && NormSq(q) > 0.0
    ensures pose.rotation == RemapRows(Transpose(QuatToRotation(q, sqrt)))
    ensures IsRotation(pose.rotation)
  {
    var r := QuatToRotation(q, sqrt);
    var rC2w := Transpose(r);
    var tC2w := Neg(MatVec(rC2w, t));
    TransposeRotation(r);
    RemapRowsRotation(rC2w);
    Pose(MatMul(AxisRemap, rC2w), MatVec(AxisRemap, tC2w))
  }

  /**
   * The returned pose undoes the reconstruction's pose: a world point p, which
   * the camera sees at R p + t, is carried back to p in the scene's axes.
   */
  lemma ColmapToBlenderInverts(q: Quat, t: Vec3, sqrt: real -> real, p: Vec3)
    requires IsSqrt(sqrt) && NormSq(q) > 0.0
    ensures var pose, r := ColmapToBlender(q, t, sqrt), QuatToRotation(q, sqrt);
      Add(MatVec(pose.rotation, Add(MatVec(r, p), t)), pose.translation) == Remap(p)
  {
    var pose, r := ColmapToBlender(q, t, sqrt), QuatToRotation(q, sqrt);
    var rt := Transpose(r);
    var u := MatVec(rt, t);
    RotationInverse(r);
    MatMulVec(AxisRemap, rt, Add(MatVec(r, p), t));
    MatVecAdd(rt, MatVec(r, p), t);
    MatMulVec(rt, r, p);
    IdentityVec(p);
    assert MatVec(rt, Add(MatVec(r, p), t)) == Add(p, u);
  }

  /** The camera centre c (where R c + t = 0) is the translation of the returned pose, in the scene's axes. */
  lemma CameraCentre(q: Quat, t: Vec3, sqrt: real -> real, c: Vec3)
    requires IsSqrt(sqrt) && NormSq(q) > 0.0
    requires Add(MatVec(QuatToRotation(q, sqrt), c), t) == Zero
    ensures ColmapToBlender(q, t, sqrt).translation == Remap(c)
  {
    ColmapToBlenderInverts(q, t, sqrt, c);
  }

  /** Dividing by the norm gives a unit quaternion. */
  lemma NormalizedIsUnit(q: Quat, n: real)
    requires n != 0.0 && n * n == NormSq(q)
    ensures NormSq4(q.w / n, q.x / n, q.y / n, q.z / n) == 1.0
  {
    DivAsMul(q.w, n);
    DivAsMul(q.x, n);
    DivAsMul(q.y, n);
    DivAsMul(q.z, n);
    ScaleBoth(NormSq(q), n * n, (1.0 / n) * (1.0 / n));
    ReciprocalSquare(n);
  }

  lemma DivAsMul(a: real, n: real)
    requires n != 0.0
    ensures a / n == a * (1.0 / n)
  {
  }

  lemma ReciprocalSquare(n: real)
    requires n != 0.0
    ensures (n * n) * ((1.0 / n) * (1.0 / n)) == 1.0
  {
    var r := 1.0 / n;
    assert n * r == 1.0;
    assert (n * n) * (r * r) == (n * r) * (n * r);
  }

  lemma ScaleBoth(s: real, t: real, r: real)
    requires s == t
    ensures s * r == t * r
  {
  }

  /** The formula of `quat_to_rotation_matrix` yields a rotation for every unit quaternion. */
  lemma UnitRotation(w: real, x: real, y: real, z: real)
    requires NormSq4(w, x, y, z) == 1.0
    ensures IsRotation(RotationFormula(w, x, y, z))
  {
    assert RotationFormula(w, x, y, z) == Homogeneous(w, x, y, z);
    HomogeneousRows(w, x, y, z);
    HomogeneousColumns(w, x, y, z);
    HomogeneousDet(w, x, y, z);
    UnitPowers(NormSq4(w, x, y, z));
  }

  lemma UnitPowers(n: real)
    requires n == 1.0
    ensures n * n == 1.0 && n * (n * n) == 1.0
  {
  }

  /** The rows of the homogeneous formula are orthogonal, each of squared length |q|^4. */
  lemma HomogeneousRows(w: real, x: real, y: real, z: real)
    ensures var m, s := Homogeneous(w, x, y, z), NormSq4(w, x, y, z) * NormSq4(w, x, y, z);
      && Dot(m.r0, m.r0) == s && Dot(m.r1, m.r1) == s && Dot(m.r2, m.r2) == s
      && Dot(m.r0, m.r1) == 0.0 && Dot(m.r0, m.r2) == 0.0 && Dot(m.r1, m.r2) == 0.0
  {
    HomogeneousRowDot00(w, x, y, z);
    HomogeneousRowDot01(w, x, y, z);
    HomogeneousRowDot02(w, x, y, z);
    HomogeneousRowDot11(w, x, y, z);
    HomogeneousRowDot12(w, x, y, z);
    HomogeneousRowDot22(w, x, y, z);
  }

  /** So are its columns: they are the rows of the formula for the conjugate quaternion (w, -x, -y, -z). */
  lemma HomogeneousColumns(w: real, x: real, y: real, z: real)
    ensures var m, s := Homogeneous(w, x, y, z), NormSq4(w, x, y, z) * NormSq4(w, x, y, z);
      && Dot(Col0(m), Col0(m)) == s && Dot(Col1(m), Col1(m)) == s && Dot(Col2(m), Col2(m)) == s
      && Dot(Col0(m), Col1(m)) == 0.0 && Dot(Col0(m), Col2(m)) == 0.0 && Dot(Col1(m), Col2(m)) == 0.0
  {
    var m := Homogeneous(w, x, y, z);
    assert Transpose(m) == Homogeneous(w, -x, -y, -z);
    assert NormSq4(w, -x, -y, -z) == NormSq4(w, x, y, z);
    HomogeneousRows(w, -x, -y, -z);
  }

  /** The determinant of the homogeneous formula is |q|^6. */
  lemma HomogeneousDet(w: real, x: real, y: real, z: real)
    ensures Det(Homogeneous(w, x, y, z)) == NormSq4(w, x, y, z) * (NormSq4(w, x, y, z) * NormSq4(w, x, y, z))
  {
    var m, n := Homogeneous(w, x, y, z), NormSq4(w, x, y, z);
    Cofactor0(w, x, y, z, m.r0.x, m.r1.y, m.r1.z, m.r2.y, m.r2.z, n);
    Cofactor1(w, x, y, z, m.r0.y, m.r1.x, m.r1.z, m.r2.x, m.r2.z, n);
    Cofactor2(w, x, y, z, m.r0.z, m.r1.x, m.r1.y, m.r2.x, m.r2.y, n);
    DetFromCofactors(m.r0.x, m.r0.y, m.r0.z, m.r1.x, m.r1.y, m.r1.z, m.r2.x, m.r2.y, m.r2.z, n);
    HomogeneousRows(w, x, y, z);
    DotScale(m.r0, n, n * n);
  }

  /** The cofactors of the first row are |q|^2 times its entries. */
  lemma Cofactor0(w: real, x: real, y: real, z: real, a: real, e: real, f: real, h: real, i: real, n: real)
    requires a == w*w + x*x - y*y - z*z && n == NormSq4(w, x, y, z)
    requires e == w*w - x*x + y*y - z*z && f == 2.0*y*z - 2.0*x*w
    requires h == 2.0*y*z + 2.0*x*w && i == w*w - x*x - y*y + z*z
    ensures Minor(e, f, h, i) == n * a
  {
    assert (w*w - x*x + y*y - z*z) * (w*w - x*x - y*y + z*z) - (2.0*y*z - 2.0*x*w) * (2.0*y*z + 2.0*x*w)
         == (w*w + x*x + y*y + z*z) * (w*w + x*x - y*y - z*z);
  }

  lemma Cofactor1(w: real, x: real, y: real, z: real, b: real, d: real, f: real, g: real, i: real, n: real)
    requires b == 2.0*x*y - 2.0*z*w && n == NormSq4(w, x, y, z)
    requires d == 2.0*x*y + 2.0*z*w && f == 2.0*y*z - 2.0*x*w
    requires g == 2.0*x*z - 2.0*y*w && i == w*w - x*x - y*y + z*z
    ensures Minor(f, d, i, g) == n * b
  {
    assert (2.0*y*z - 2.0*x*w) * (2.0*x*z - 2.0*y*w) - (2.0*x*y + 2.0*z*w) * (w*w - x*x - y*y + z*z)
         == (w*w + x*x + y*y + z*z) * (2.0*x*y - 2.0*z*w);
  }

  lemma Cofactor2(w: real, x: real, y: real, z: real, c: real, d: real, e: real, g: real, h: real, n: real)
    requires c == 2.0*x*z + 2.0*y*w && n == NormSq4(w, x, y, z)
    requires d == 2.0*x*y + 2.0*z*w && e == w*w - x*x + y*y - z*z
    requires g == 2.0*x*z - 2.0*y*w && h == 2.0*y*z + 2.0*x*w
    ensures Minor(d, e, g, h) == n * c
  {
    assert (2.0*x*y + 2.0*z*w) * (2.0*y*z + 2.0*x*w) - (w*w - x*x + y*y - z*z) * (2.0*x*z - 2.0*y*w)
         == (w*w + x*x + y*y + z*z) * (2.0*x*z + 2.0*y*w);
  }

  /** Expansion along the first row when the cofactors are n times the entries. */
  lemma DetFromCofactors(a: real, b: real, c: real, d: real, e: real, f: real, g: real, h: real, i: real, n: real)
    requires Minor(e, f, h, i) == n * a && Minor(f, d, i, g) == n * b && Minor(d, e, g, h) == n * c
    ensures Det3(a, b, c, d, e, f, g, h, i) == Dot(Vec3(a, b, c), Scale(n, Vec3(a, b, c)))
  {
  }

  /** Scaling one side scales the dot product. */
  lemma DotScale(u: Vec3, n: real, s: real)
    requires Dot(u, u) == s
    ensures Dot(u, Scale(n, u)) == n * s
  {
  }

  lemma HomogeneousRowDot00(w: real, x: real, y: real, z: real)
    ensures Dot(Vec3(w*w + x*x - y*y - z*z, 2.0*x*y - 2.0*z*w, 2.0*x*z + 2.0*y*w),
                Vec3(w*w + x*x - y*y - z*z, 2.0*x*y - 2.0*z*w, 2.0*x*z + 2.0*y*w))
         == NormSq4(w, x, y, z) * NormSq4(w, x, y, z)
  {
    assert (w*w + x*x - y*y - z*z) * (w*w + x*x - y*y - z*z)
         + (2.0*x*y - 2.0*z*w) * (2.0*x*y - 2.0*z*w)
         + (2.0*x*z + 2.0*y*w) * (2.0*x*z + 2.0*y*w)
        == (w*w + x*x + y*y + z*z) * (w*w + x*x + y*y + z*z);
  }

  lemma HomogeneousRowDot01(w: real, x: real, y: real, z: real)
    ensures Dot(Vec3(w*w + x*x - y*y - z*z, 2.0*x*y - 2.0*z*w, 2.0*x*z + 2.0*y*w),
                Vec3(2.0*x*y + 2.0*z*w, w*w - x*x + y*y - z*z, 2.0*y*z - 2.0*x*w))
         == 0.0
  {
    assert (w*w + x*x - y*y - z*z) * (2.0*x*y + 2.0*z*w)
         + (2.0*x*y - 2.0*z*w) * (w*w - x*x + y*y - z*z)
         + (2.0*x*z + 2.0*y*w) * (2.0*y*z - 2.0*x*w)
        == 0.0;
  }

  lemma HomogeneousRowDot02(w: real, x: real, y: real, z: real)
    ensures Dot(Vec3(w*w + x*x - y*y - z*z, 2.0*x*y - 2.0*z*w, 2.0*x*z + 2.0*y*w),
                Vec3(2.0*x*z - 2.0*y*w, 2.0*y*z + 2.0*x*w, w*w - x*x - y*y + z*z))
         == 0.0
  {
    assert (w*w + x*x - y*y - z*z) * (2.0*x*z - 2.0*y*w)
         + (2.0*x*y - 2.0*z*w) * (2.0*y*z + 2.0*x*w)
         + (2.0*x*z + 2.0*y*w) * (w*w - x*x - y*y + z*z)
        == 0.0;
  }

  lemma HomogeneousRowDot11(w: real, x: real, y: real, z: real)
    ensures Dot(Vec3(2.0*x*y + 2.0*z*w, w*w - x*x + y*y - z*z, 2.0*y*z - 2.0*x*w),
                Vec3(2.0*x*y + 2.0*z*w, w*w - x*x + y*y - z*z, 2.0*y*z - 2.0*x*w))
         == NormSq4(w, x, y, z) * NormSq4(w, x, y, z)
  {
    assert (2.0*x*y + 2.0*z*w) * (2.0*x*y + 2.0*z*w)
         + (w*w - x*x + y*y - z*z) * (w*w - x*x + y*y - z*z)
         + (2.0*y*z - 2.0*x*w) * (2.0*y*z - 2.0*x*w)
        == (w*w + x*x + y*y + z*z) * (w*w + x*x + y*y + z*z);
  }

  lemma HomogeneousRowDot12(w: real, x: real, y: real, z: real)
    ensures Dot(Vec3(2.0*x*y + 2.0*z*w, w*w - x*x + y*y - z*z, 2.0*y*z - 2.0*x*w),
                Vec3(2.0*x*z - 2.0*y*w, 2.0*y*z + 2.0*x*w, w*w - x*x - y*y + z*z))
         == 0.0
  {
    assert (2.0*x*y + 2.0*z*w) * (2.0*x*z - 2.0*y*w)
         + (w*w - x*x + y*y - z*z) * (2.0*y*z + 2.0*x*w)
         + (2.0*y*z - 2.0*x*w) * (w*w - x*x - y*y + z*z)
        == 0.0;
  }

  lemma HomogeneousRowDot22(w: real, x: real, y: real, z: real)
    ensures Dot(Vec3(2.0*x*z - 2.0*y*w, 2.0*y*z + 2.0*x*w, w*w - x*x - y*y + z*z),
                Vec3(2.0*x*z - 2.0*y*w, 2.0*y*z + 2.0*x*w, w*w - x*x - y*y + z*z))
         == NormSq4(w, x, y, z) * NormSq4(w, x, y, z)
  {
    assert (2.0*x*z - 2.0*y*w) * (2.0*x*z - 2.0*y*w)
         + (2.0*y*z + 2.0*x*w) * (2.0*y*z + 2.0*x*w)
         + (w*w - x*x - y*y + z*z) * (w*w - x*x - y*y + z*z)
        == (w*w + x*x + y*y + z*z) * (w*w + x*x + y*y + z*z);
  }

}

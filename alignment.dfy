/**
 * Placing the splat cloud over the COLMAP points: the centroid
 * translation and bounding-box scale of `align_gaussian_splats_with_colmap`,
 * and the centroid-matching loop of `simple_icp_alignment`.
 */
module Alignment {
  import opened Wrappers
  import opened Geometry

  const Zero: Vec3 := Vec3(0.0, 0.0, 0.0)

  function Sub(a: Vec3, b: Vec3): Vec3 { Vec3(a.x - b.x, a.y - b.y, a.z - b.z) }

  /** Coordinate `i` of a point: `p[i]`. */
  function Coord(p: Vec3, i: nat): real
    requires i < 3
  {
    if i == 0 then p.x else if i == 1 then p.y else p.z
  }

  // ------------------------------------------------------------ centroids

  /** The axis-wise sum of the points. */
  function Sum(ps: seq<Vec3>): Vec3
  {
    if |ps| == 0 then Zero else Add(Sum(ps[..|ps| - 1]), ps[|ps| - 1])
  }

  /** `np.mean(points, axis=0)`. */
  function Centroid(ps: seq<Vec3>): Vec3
    requires |ps| > 0
  {
    Scale(1.0 / |ps| as real, Sum(ps))
  }

  /** `(colmap_to_blender @ points.T).T`. */
  function RemapAll(ps: seq<Vec3>): (r: seq<Vec3>)
    ensures |r| == |ps| && forall i :: 0 <= i < |ps| ==> r[i] == Remap(ps[i])
  {
    seq(|ps|, i requires 0 <= i < |ps| => Remap(ps[i]))
  }

  /** `points + t`. */
  function Translate(ps: seq<Vec3>, t: Vec3): (r: seq<Vec3>)
    ensures |r| == |ps| && forall i :: 0 <= i < |ps| ==> r[i] == Add(ps[i], t)
  {
    seq(|ps|, i requires 0 <= i < |ps| => Add(ps[i], t))
  }

  /** `(R @ points.T).T`. */
  function RotateAll(m: Mat3, ps: seq<Vec3>): (r: seq<Vec3>)
    ensures |r| == |ps| && forall i :: 0 <= i < |ps| ==> r[i] == MatVec(m, ps[i])
  {
    seq(|ps|, i requires 0 <= i < |ps| => MatVec(m, ps[i]))
  }

  lemma {:induction false} SumRemap(ps: seq<Vec3>)
    ensures Sum(RemapAll(ps)) == Remap(Sum(ps))
  {
    if |ps| > 0 {
      var init := ps[..|ps| - 1];
      assert RemapAll(ps)[..|ps| - 1] == RemapAll(init);
      SumRemap(init);
    }
  }

  /** Remapping the axes and averaging commute: the remapped centroid is the centroid of the remapped points. */
  lemma CentroidRemap(ps: seq<Vec3>)
    requires |ps| > 0
    ensures Centroid(RemapAll(ps)) == Remap(Centroid(ps))
  {
    SumRemap(ps);
  }

  /** `t` added to itself `k` times. */
  function Times(k: nat, t: Vec3): Vec3
  {
    if k == 0 then Zero else Add(Times(k - 1, t), t)
  }

  lemma {:induction false} TimesScale(k: nat, t: Vec3)
    ensures Times(k, t) == Scale(k as real, t)
  {
    if k > 0 {
      TimesScale(k - 1, t);
      var m := (k - 1) as real;
      Distribute(m, t.x);
      Distribute(m, t.y);
      Distribute(m, t.z);
    }
  }

  lemma Distribute(m: real, x: real)
    ensures m * x + x == (m + 1.0) * x
  {
  }

  lemma {:induction false} SumTranslate(ps: seq<Vec3>, t: Vec3)
    ensures Sum(Translate(ps, t)) == Add(Sum(ps), Times(|ps|, t))
  {
    if |ps| > 0 {
      var init := ps[..|ps| - 1];
      assert Translate(ps, t)[..|ps| - 1] == Translate(init, t);
      SumTranslate(init, t);
    }
  }

  /** Moving every point by `t` moves the centroid by `t`. */
  lemma CentroidTranslate(ps: seq<Vec3>, t: Vec3)
    requires |ps| > 0
    ensures Centroid(Translate(ps, t)) == Add(Centroid(ps), t)
  {
    SumTranslate(ps, t);
    TimesScale(|ps|, t);
    ShiftVec(|ps| as real, Sum(ps), t);
  }

  lemma ShiftVec(n: real, s: Vec3, t: Vec3)
    requires n > 0.0
    ensures Scale(1.0 / n, Add(s, Scale(n, t))) == Add(Scale(1.0 / n, s), t)
  {
    Shift(n, s.x, t.x);
    Shift(n, s.y, t.y);
    Shift(n, s.z, t.z);
  }

  lemma Shift(n: real, a: real, b: real)
    requires n > 0.0
    ensures (1.0 / n) * (a + n * b) == (1.0 / n) * a + b
  {
    assert (1.0 / n) * n == 1.0;
    assert (1.0 / n) * (a + n * b) == (1.0 / n) * a + ((1.0 / n) * n) * b;
  }

  lemma {:induction false} RotateIdentity(ps: seq<Vec3>)
    ensures RotateAll(Identity, ps) == ps
  {
    forall i | 0 <= i < |ps| ensures RotateAll(Identity, ps)[i] == ps[i] {
      IdentityVec(ps[i]);
    }
  }

  // ------------------------------------------------------------- extents

  /** The largest coordinate `i` of the points. */
  function MaxOn(ps: seq<Vec3>, i: nat): real
    requires |ps| > 0 && i < 3
  {
    if |ps| == 1 then Coord(ps[0], i)
    else
      var m := MaxOn(ps[..|ps| - 1], i);
      var c := Coord(ps[|ps| - 1], i);
      if c > m then c else m
  }

  /** The smallest coordinate `i` of the points. */
  function MinOn(ps: seq<Vec3>, i: nat): real
    requires |ps| > 0 && i < 3
  {
    if |ps| == 1 then Coord(ps[0], i)
    else
      var m := MinOn(ps[..|ps| - 1], i);
      var c := Coord(ps[|ps| - 1], i);
      if c < m then c else m
  }

  /** The maximum bounds every point and is reached by one; likewise the minimum. */
  lemma {:induction false} Bounds(ps: seq<Vec3>, i: nat)
    requires |ps| > 0 && i < 3
    ensures forall k :: 0 <= k < |ps| ==> MinOn(ps, i) <= Coord(ps[k], i) <= MaxOn(ps, i)
    ensures exists k :: 0 <= k < |ps| && Coord(ps[k], i) == MaxOn(ps, i)
    ensures exists k :: 0 <= k < |ps| && Coord(ps[k], i) == MinOn(ps, i)
  {
    if |ps| > 1 {
      var init := ps[..|ps| - 1];
      Bounds(init, i);
      var a :| 0 <= a < |init| && Coord(init[a], i) == MaxOn(init, i);
      var b :| 0 <= b < |init| && Coord(init[b], i) == MinOn(init, i);
      assert ps[a] == init[a] && ps[b] == init[b];
      forall k | 0 <= k < |ps| ensures MinOn(ps, i) <= Coord(ps[k], i) <= MaxOn(ps, i) {
        if k < |init| {
          assert ps[k] == init[k];
        }
      }
    }
  }

  /** `np.ptp(points, axis=0)`: the extent of the points along each axis. */
  function Extents(ps: seq<Vec3>): (e: Vec3)
    requires |ps| > 0
  {
    Vec3(MaxOn(ps, 0) - MinOn(ps, 0), MaxOn(ps, 1) - MinOn(ps, 1), MaxOn(ps, 2) - MinOn(ps, 2))
  }

  /** Every extent is the largest distance between two points along its axis, so it is never negative. */
  lemma ExtentsSpan(ps: seq<Vec3>, i: nat)
    requires |ps| > 0 && i < 3
    ensures Coord(Extents(ps), i) >= 0.0
    ensures forall a, b :: 0 <= a < |ps| && 0 <= b < |ps| ==> Coord(ps[a], i) - Coord(ps[b], i) <= Coord(Extents(ps), i)
    ensures exists a, b :: 0 <= a < |ps| && 0 <= b < |ps| && Coord(ps[a], i) - Coord(ps[b], i) == Coord(Extents(ps), i)
  {
    Bounds(ps, i);
    var a :| 0 <= a < |ps| && Coord(ps[a], i) == MaxOn(ps, i);
    var b :| 0 <= b < |ps| && Coord(ps[b], i) == MinOn(ps, i);
    assert Coord(ps[a], i) - Coord(ps[b], i) == Coord(Extents(ps), i);
  }

  // ----------------------------------------------------------------- scale

  /** The ratio loop over the first `k` axes: `colmap[i] / splat[i]` for each axis whose splat extent is positive. */
  function RatiosUpTo(cb: Vec3, sb: Vec3, k: nat): (rs: seq<real>)
    requires k <= 3
    ensures |rs| <= k
  {
    if k == 0 then []
    else RatiosUpTo(cb, sb, k - 1) + (if Coord(sb, k - 1) > 0.0 then [Coord(cb, k - 1) / Coord(sb, k - 1)] else [])
  }

  /** The axes among the first `k` whose splat extent is positive. */
  function PositiveAxes(sb: Vec3, k: nat): nat
    requires k <= 3
  {
    if k == 0 then 0 else PositiveAxes(sb, k - 1) + (if Coord(sb, k - 1) > 0.0 then 1 else 0)
  }

  /** One ratio per axis with a positive splat extent, and each is that axis's ratio of extents. */
  lemma {:induction false} RatiosShape(cb: Vec3, sb: Vec3, k: nat)
    requires k <= 3
    ensures |RatiosUpTo(cb, sb, k)| == PositiveAxes(sb, k)
    ensures forall j :: 0 <= j < |RatiosUpTo(cb, sb, k)| ==>
      exists i :: 0 <= i < k && Coord(sb, i) > 0.0 && RatiosUpTo(cb, sb, k)[j] == Coord(cb, i) / Coord(sb, i)
  {
    if k > 0 {
      RatiosShape(cb, sb, k - 1);
      var prev := RatiosUpTo(cb, sb, k - 1);
      var rs := RatiosUpTo(cb, sb, k);
      forall j | 0 <= j < |rs|
        ensures exists i :: 0 <= i < k && Coord(sb, i) > 0.0 && rs[j] == Coord(cb, i) / Coord(sb, i)
      {
        if j < |prev| {
          assert rs[j] == prev[j];
          var i :| 0 <= i < k - 1 && Coord(sb, i) > 0.0 && prev[j] == Coord(cb, i) / Coord(sb, i);
        } else {
          assert rs[j] == Coord(cb, k - 1) / Coord(sb, k - 1);
        }
      }
    }
  }

  /** The ratio loop. */
  method ScaleRatios(cb: Vec3, sb: Vec3) returns (rs: seq<real>)
    ensures rs == RatiosUpTo(cb, sb, 3)
  {
    rs := [];
    for i := 0 to 3
      invariant rs == RatiosUpTo(cb, sb, i)
    {
      if Coord(sb, i) > 0.0 {
        rs := rs + [Coord(cb, i) / Coord(sb, i)];
      }
    }
  }

  function Max(a: real, b: real): real { if a >= b then a else b }
  function Min(a: real, b: real): real { if a <= b then a else b }

  /** `m` is the middle one of three values: one of them, with one of the others on each side. */
  predicate IsMiddle(a: real, b: real, c: real, m: real)
  {
    || (m == a && ((b <= m <= c) || (c <= m <= b)))
    || (m == b && ((a <= m <= c) || (c <= m <= a)))
    || (m == c && ((a <= m <= b) || (b <= m <= a)))
  }

  /** `np.median` of one, two or three values. */
  function Median(rs: seq<real>): real
    requires 1 <= |rs| <= 3
  {
    if |rs| == 1 then rs[0]
    else if |rs| == 2 then (rs[0] + rs[1]) / 2.0
    else Max(Min(rs[0], rs[1]), Min(Max(rs[0], rs[1]), rs[2]))
  }

  /** The median of three values is the middle one; of two, their midpoint; of values all equal to `r`, `r`. */
  lemma MedianMiddle(rs: seq<real>)
    requires 1 <= |rs| <= 3
    ensures |rs| == 3 ==> IsMiddle(rs[0], rs[1], rs[2], Median(rs))
    ensures |rs| == 2 ==> Min(rs[0], rs[1]) <= Median(rs) <= Max(rs[0], rs[1])
  {
  }

  lemma MedianConstant(rs: seq<real>, r: real)
    requires 1 <= |rs| <= 3 && forall j :: 0 <= j < |rs| ==> rs[j] == r
    ensures Median(rs) == r
  {
    if |rs| == 2 {
      assert rs[0] == r && rs[1] == r;
    } else if |rs| == 3 {
      assert rs[0] == r && rs[1] == r && rs[2] == r;
    }
  }

  lemma RatioOf(k: real, s: real)
    requires s > 0.0
    ensures (k * s) / s == k
  {
  }

  /** `max(0.5, min(2.0, s))`. */
  function Clamp(s: real): real
  {
    Max(0.5, Min(2.0, s))
  }

  /** The scale factor: the clamped median of the ratios, or 1.0 when no splat extent is positive. */
  function ScaleFactor(cb: Vec3, sb: Vec3): real
  {
    var rs := RatiosUpTo(cb, sb, 3);
    if |rs| == 0 then 1.0 else Clamp(Median(rs))
  }

  /** The factor always lies in [0.5, 2.0], and is 1.0 when no splat extent is positive. */
  lemma ScaleFactorRange(cb: Vec3, sb: Vec3)
    ensures 0.5 <= ScaleFactor(cb, sb) <= 2.0
    ensures PositiveAxes(sb, 3) == 0 ==> ScaleFactor(cb, sb) == 1.0
  {
    RatiosShape(cb, sb, 3);
  }

  /**
   * The factor recovers a uniform scale `k` in [0.5, 2.0] exactly: if every
   * positive splat extent is `k` times smaller than the COLMAP one, the
   * factor is `k`.
   */
  lemma ScaleRecovery(cb: Vec3, sb: Vec3, k: real)
    requires 0.5 <= k <= 2.0 && PositiveAxes(sb, 3) > 0
    requires forall i :: 0 <= i < 3 && Coord(sb, i) > 0.0 ==> Coord(cb, i) == k * Coord(sb, i)
    ensures ScaleFactor(cb, sb) == k
  {
    RatiosShape(cb, sb, 3);
    RatiosUniform(cb, sb, k, 3);
    MedianConstant(RatiosUpTo(cb, sb, 3), k);
  }

  lemma {:induction false} RatiosUniform(cb: Vec3, sb: Vec3, k: real, n: nat)
    requires n <= 3
    requires forall i :: 0 <= i < n && Coord(sb, i) > 0.0 ==> Coord(cb, i) == k * Coord(sb, i)
    ensures forall j :: 0 <= j < |RatiosUpTo(cb, sb, n)| ==> RatiosUpTo(cb, sb, n)[j] == k
  {
    if n > 0 {
      RatiosUniform(cb, sb, k, n - 1);
      if Coord(sb, n - 1) > 0.0 {
        RatioOf(k, Coord(sb, n - 1));
      }
    }
  }

  // ------------------------------------------------------------ alignment

  /** `translation_offset`: the COLMAP centroid minus the centroid of the remapped splats. */
  function Translation(colmap: seq<Vec3>, splats: seq<Vec3>): Vec3
    requires |colmap| > 0 && |splats| > 0
  {
    Sub(Centroid(colmap), Centroid(RemapAll(splats)))
  }

  /** The translation puts the centroid of the remapped splats onto the COLMAP centroid. */
  lemma TranslationAligns(colmap: seq<Vec3>, splats: seq<Vec3>)
    requires |colmap| > 0 && |splats| > 0
    ensures Centroid(Translate(RemapAll(splats), Translation(colmap, splats))) == Centroid(colmap)
    ensures Translation(colmap, splats) == Sub(Centroid(colmap), Remap(Centroid(splats)))
  {
    CentroidTranslate(RemapAll(splats), Translation(colmap, splats));
    CentroidRemap(splats);
  }

  /** The Blender object the splats were imported as: the transform fields the alignment sets. */
  class SplatObject {
    var location: Vec3
    var scale: Vec3
    var rotation: Mat3

    constructor (location: Vec3, scale: Vec3, rotation: Mat3)
      ensures this.location == location && this.scale == scale && this.rotation == rotation
    {
      this.location := location;
      this.scale := scale;
      this.rotation := rotation;
    }
  }

  /**
   * `align_gaussian_splats_with_colmap`: nothing happens without an object
   * or with an empty cloud; otherwise the object is moved by the
   * translation, scaled uniformly and turned by the axis remap.
   */
  method Align(obj: SplatObject?, colmap: seq<Vec3>, splats: seq<Vec3>) returns (r: SplatObject?)
    modifies obj
    ensures r == obj
    ensures obj != null && (|colmap| == 0 || |splats| == 0) ==> unchanged(obj)
    ensures obj != null && |colmap| > 0 && |splats| > 0 ==>
      var s := ScaleFactor(Extents(colmap), Extents(RemapAll(splats)));
      && obj.location == Translation(colmap, splats)
      && obj.scale == Vec3(s, s, s)
      && obj.rotation == AxisRemap
  {
    if obj == null || |colmap| == 0 || |splats| == 0 {
      return obj;
    }
    var moved := RemapAll(splats);
    var offset := Sub(Centroid(colmap), Centroid(moved));
    var rs := ScaleRatios(Extents(colmap), Extents(moved));
    var s := if |rs| > 0 then Clamp(Median(rs)) else 1.0;
    obj.location := offset;
    obj.scale := Vec3(s, s, s);
    obj.rotation := AxisRemap;
    return obj;
  }

  // ------------------------------------------------------------------ ICP

  /** The most points a cloud keeps in the ICP loop. */
  const IcpPoints: nat := 1000

  /** `np.random.choice(n, k, replace=False)`: `k` distinct indices below `n`. */
  predicate IsChoice(indices: seq<nat>, n: nat, k: nat)
  {
    && |indices| == k
    && (forall i :: 0 <= i < k ==> indices[i] < n)
    && forall i, j :: 0 <= i < j < k ==> indices[i] != indices[j]
  }

  /** `points[indices]`. */
  function Select<T>(ps: seq<T>, indices: seq<nat>): (r: seq<T>)
    requires forall i :: 0 <= i < |indices| ==> indices[i] < |ps|
    ensures |r| == |indices| && forall i :: 0 <= i < |indices| ==> r[i] == ps[indices[i]]
  {
    seq(|indices|, i requires 0 <= i < |indices| => ps[indices[i]])
  }

  /** The cloud the loop works on: the chosen points of a cloud over 1000 points, otherwise a copy. */
  function Subset(ps: seq<Vec3>, pick: seq<nat>): (r: seq<Vec3>)
    requires |ps| > IcpPoints ==> IsChoice(pick, |ps|, IcpPoints)
    ensures |ps| > 0 ==> |r| > 0
  {
    if |ps| > IcpPoints then Select(ps, pick) else ps
  }

  /**
   * What the lemmas below need of `np.linalg.norm`: it is never negative,
   * and zero exactly at the zero vector.
   */
  ghost predicate IsNorm(norm: Vec3 -> real)
  {
    forall v :: 0.0 <= norm(v) && (norm(v) == 0.0 <==> v == Zero)
  }

  /**
   * What the loop returns as `t`, with `d` the target centroid minus the
   * source centroid: `t` alternates between `d` (odd iterations) and zero
   * (even ones); the error test compares |d| and |0| the same way every
   * time after the first, so the loop either stops after its second pass
   * with `t` zero, or runs all its passes.
   */
  function IcpTranslation(d: Vec3, iterations: int, tolerance: real, norm: Vec3 -> real): Vec3
  {
    if iterations <= 0 then Zero
    else if iterations >= 2 && Abs(norm(d) - norm(Zero)) < tolerance then Zero
    else Alternate(d, iterations)
  }

  /** `t` after pass `i` of the loop when it has not stopped: `d` after odd passes, zero after even ones. */
  function Alternate(d: Vec3, i: int): Vec3
  {
    if i % 2 == 1 then d else Zero
  }

  function Abs(x: real): real { if x < 0.0 then -x else x }

  /**
   * With a true norm and `d` not zero, the loop ends with `d` exactly when
   * it makes an odd number of passes and |d| is not below the tolerance.
   */
  lemma IcpStopsEarly(d: Vec3, iterations: int, tolerance: real, norm: Vec3 -> real)
    requires IsNorm(norm) && iterations >= 2 && d != Zero
    ensures IcpTranslation(d, iterations, tolerance, norm) == d <==>
      iterations % 2 == 1 && norm(d) >= tolerance
  {
    var t := IcpTranslation(d, iterations, tolerance, norm);
    assert norm(Zero) == 0.0 && norm(d) >= 0.0;
    if norm(d) < tolerance {
      assert Abs(norm(d) - norm(Zero)) < tolerance;
      assert t == Zero;
    } else if iterations % 2 == 1 {
      assert t == d;
    } else {
      assert t == Zero;
    }
  }

  /** The loop's translation is always `d` or zero. */
  lemma IcpAlternates(d: Vec3, iterations: int, tolerance: real, norm: Vec3 -> real)
    ensures IcpTranslation(d, iterations, tolerance, norm) == d || IcpTranslation(d, iterations, tolerance, norm) == Zero
    ensures iterations == 1 ==> IcpTranslation(d, iterations, tolerance, norm) == d
    ensures iterations % 2 == 0 ==> IcpTranslation(d, iterations, tolerance, norm) == Zero
  {
  }

  /**
   * One pass of the loop with the identity rotation: the new translation is
   * `d` minus the current one, so it flips between `d` and zero.
   */
  lemma IcpStep(src: seq<Vec3>, tgt: seq<Vec3>, t: Vec3, i: int)
    requires |src| > 0 && |tgt| > 0
    requires t == Alternate(Sub(Centroid(tgt), Centroid(src)), i)
    ensures Sub(Centroid(tgt), Centroid(Translate(RotateAll(Identity, src), t)))
         == Alternate(Sub(Centroid(tgt), Centroid(src)), i + 1)
  {
    RotateIdentity(src);
    CentroidTranslate(src, t);
  }

  /**
   * The error test can only pass on the second pass (`i == 1`), where it
   * compares |d| with |0|; the loop then returns zero, as `IcpTranslation`
   * says.
   */
  lemma IcpBreak(d: Vec3, i: int, iterations: int, tolerance: real, norm: Vec3 -> real)
    requires 1 <= i < iterations
    requires i >= 2 ==> !(Abs(norm(d) - norm(Zero)) < tolerance)
    requires Abs(norm(Alternate(d, i)) - norm(Alternate(d, i + 1))) < tolerance
    ensures i == 1 && Alternate(d, i + 1) == IcpTranslation(d, iterations, tolerance, norm)
  {
    AbsSwap(norm(d), norm(Zero));
  }

  lemma AbsSwap(a: real, b: real)
    ensures Abs(b - a) == Abs(a - b)
  {
  }

  /** When the loop runs out of passes, `t` is what `IcpTranslation` says. */
  lemma IcpRunsOut(d: Vec3, i: int, iterations: int, tolerance: real, norm: Vec3 -> real)
    requires 0 <= i && (i <= iterations || i == 0) && i >= iterations
    requires i >= 2 ==> !(Abs(norm(d) - norm(Zero)) < tolerance)
    ensures Alternate(d, i) == IcpTranslation(d, iterations, tolerance, norm)
  {
  }

  /** `simple_icp_alignment`: the rotation stays the identity and `t` is the loop's last translation. */
  method SimpleIcp(source: seq<Vec3>, target: seq<Vec3>, maxIterations: int, tolerance: real,
                   norm: Vec3 -> real, pickSource: seq<nat>, pickTarget: seq<nat>) returns (rotation: Mat3, t: Vec3)
    requires |source| > 0 && |target| > 0
    requires |source| > IcpPoints ==> IsChoice(pickSource, |source|, IcpPoints)
    requires |target| > IcpPoints ==> IsChoice(pickTarget, |target|, IcpPoints)
    ensures rotation == Identity
    ensures t == IcpTranslation(Sub(Centroid(Subset(target, pickTarget)), Centroid(Subset(source, pickSource))),
                                maxIterations, tolerance, norm)
  {
    var src := Subset(source, pickSource);
    var tgt := Subset(target, pickTarget);
    ghost var d := Sub(Centroid(tgt), Centroid(src));
    rotation := Identity;
    t := Zero;
    var prevError: Option<real> := None;
    var iteration := 0;
    while iteration < maxIterations
      invariant 0 <= iteration && (iteration <= maxIterations || iteration == 0)
      invariant t == Alternate(d, iteration)
      invariant prevError == (if iteration == 0 then None else Some(norm(t)))
      invariant iteration >= 2 ==> !(Abs(norm(d) - norm(Zero)) < tolerance)
    {
      var moved := Translate(RotateAll(rotation, src), t);
      IcpStep(src, tgt, t, iteration);
      var sourceCentroid := Centroid(moved);
      var targetCentroid := Centroid(tgt);
      t := Sub(targetCentroid, sourceCentroid);
      var currentError := norm(t);
      if prevError.Some? && Abs(prevError.value - currentError) < tolerance {
        IcpBreak(d, iteration, maxIterations, tolerance, norm);
        return;
      }
      prevError := Some(currentError);
      iteration := iteration + 1;
    }
    IcpRunsOut(d, iteration, maxIterations, tolerance, norm);
  }

  /** The default of `max_iterations`. */
  const IcpDefaultIterations: int := 10

  /**
   * With its default of ten passes the loop as written ends on an even pass,
   * so it returns a zero translation whatever the two clouds are, even when
   * their centroids differ.
   */
  lemma IcpDefaultZero(d: Vec3, tolerance: real, norm: Vec3 -> real)
    ensures IcpTranslation(d, IcpDefaultIterations, tolerance, norm) == Zero
    ensures d != Zero ==> IcpTranslation(d, IcpDefaultIterations, tolerance, norm) != d
  {
    IcpAlternates(d, IcpDefaultIterations, tolerance, norm);
  }

  /**
   * `simple_icp_alignment` with the update accumulated,
   * `t = t + (target_centroid - source_centroid)`: from the first pass on
   * `t` is the centroid difference, so the translated source subset has the
   * target subset's centroid, whatever the number of passes.
   */
  method SimpleIcpAccumulated(source: seq<Vec3>, target: seq<Vec3>, maxIterations: int, tolerance: real,
                              norm: Vec3 -> real, pickSource: seq<nat>, pickTarget: seq<nat>) returns (rotation: Mat3, t: Vec3)
    requires |source| > 0 && |target| > 0
    requires |source| > IcpPoints ==> IsChoice(pickSource, |source|, IcpPoints)
    requires |target| > IcpPoints ==> IsChoice(pickTarget, |target|, IcpPoints)
    ensures rotation == Identity
    ensures maxIterations <= 0 ==> t == Zero
    ensures maxIterations >= 1 ==> t == Sub(Centroid(Subset(target, pickTarget)), Centroid(Subset(source, pickSource)))
    ensures maxIterations >= 1 ==> Centroid(Translate(Subset(source, pickSource), t)) == Centroid(Subset(target, pickTarget))
  {
    var src := Subset(source, pickSource);
    var tgt := Subset(target, pickTarget);
    ghost var d := Sub(Centroid(tgt), Centroid(src));
    rotation := Identity;
    t := Zero;
    var prevError: Option<real> := None;
    var iteration := 0;
    while iteration < maxIterations
      invariant 0 <= iteration && (iteration <= maxIterations || iteration == 0)
      invariant iteration == 0 ==> t == Zero
      invariant iteration >= 1 ==> t == d
    {
      var moved := Translate(RotateAll(rotation, src), t);
      RotateIdentity(src);
      CentroidTranslate(src, t);
      var sourceCentroid := Centroid(moved);
      var targetCentroid := Centroid(tgt);
      t := Add(t, Sub(targetCentroid, sourceCentroid));
      var currentError := norm(t);
      if prevError.Some? && Abs(prevError.value - currentError) < tolerance {
        break;
      }
      prevError := Some(currentError);
      iteration := iteration + 1;
    }
    if maxIterations >= 1 {
      CentroidTranslate(src, t);
    }
  }
}

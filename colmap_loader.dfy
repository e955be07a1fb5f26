/**
 * `COLMAPLoader`: it finds the directory that holds a sparse reconstruction,
 * reads its three model files into three dict fields, and hands out the
 * camera poses and the point cloud in the scene's axes. The file system is a
 * pair of parameters: which paths exist, and the bytes of each file. Doubles
 * become reals through a caller-supplied interpretation, and the square root
 * of the quaternion normalisation is a parameter that only has to be a
 * square root.
 */
module ColmapLoader {
  import opened Wrappers
  import opened Bytes
  import opened OrderedMaps
  import opened RecordStreams
  import opened ColmapFormat
  import opened ColmapReader
  import opened ImageSort
  import opened Geometry

  /** A path as its components. */
  type Path = seq<string>

  /** The directories searched, in order: root/sparse/0, root/sparse, root. */
  function Candidates(root: Path): seq<Path>
  {
    [root + ["sparse", "0"], root + ["sparse"], root]
  }

  /** The directory holds all three model files. */
  predicate Complete(dir: Path, present: Path -> bool)
  {
    present(dir + ["cameras.bin"]) && present(dir + ["images.bin"]) && present(dir + ["points3D.bin"])
  }

  /** The first of `dirs` that holds all three files, if any does. */
  function FirstComplete(dirs: seq<Path>, present: Path -> bool): (r: Option<Path>)
    ensures r.None? <==> forall i :: 0 <= i < |dirs| ==> !Complete(dirs[i], present)
    ensures r.Some? ==> exists i :: 0 <= i < |dirs| && dirs[i] == r.value && Complete(dirs[i], present)
                         && forall j :: 0 <= j < i ==> !Complete(dirs[j], present)
  {
    if |dirs| == 0 then None
    else if Complete(dirs[0], present) then Some(dirs[0])
    else
      assert forall j :: 0 <= j < |dirs[1..]| ==> dirs[1..][j] == dirs[j + 1];
      FirstComplete(dirs[1..], present)
  }

  /** What a `try` around one reader leaves in its field: the dict read, or the field as it was. */
  function Loaded<V>(read: Result<OMap<int, V>, DecodeError>, before: OMap<int, V>): OMap<int, V>
  {
    if read.Ok? then read.value else before
  }

  /** A complete cameras.bin replaces the dict; one cut short leaves the dict as it was. */
  lemma LoadedCamerasFile(cs: seq<Camera>, k: nat, before: OMap<int, Camera>)
    requires IsU64(|cs|) && forall i :: 0 <= i < |cs| ==> CameraWellFormed(cs[i])
    ensures Loaded(ReadCameras(EncodeFile(cs, EncodeCamera)), before) == FromRecords(cs, CameraId)
    ensures k < |EncodeFile(cs, EncodeCamera)| ==>
      Loaded(ReadCameras(EncodeFile(cs, EncodeCamera)[..k]), before) == before
  {
    CamerasFileRoundTrip(cs);
    if k < |EncodeFile(cs, EncodeCamera)| {
      CamerasFileTruncated(cs, k);
    }
  }

  lemma LoadedImagesFile(ims: seq<Image>, k: nat, before: OMap<int, Image>)
    requires IsU64(|ims|) && forall i :: 0 <= i < |ims| ==> ImageWellFormed(ims[i])
    ensures Loaded(ReadImages(EncodeFile(ims, EncodeImage)), before) == FromRecords(ims, ImageId)
    ensures k < |EncodeFile(ims, EncodeImage)| ==>
      Loaded(ReadImages(EncodeFile(ims, EncodeImage)[..k]), before) == before
  {
    ImagesFileRoundTrip(ims);
    if k < |EncodeFile(ims, EncodeImage)| {
      ImagesFileTruncated(ims, k);
    }
  }

  lemma LoadedPointsFile(pts: seq<Point3D>, k: nat, before: OMap<int, Point3D>)
    requires IsU64(|pts|) && forall i :: 0 <= i < |pts| ==> PointWellFormed(pts[i])
    ensures Loaded(ReadPoints(EncodeFile(pts, EncodePoint)), before) == FromRecords(pts, PointId)
    ensures k < |EncodeFile(pts, EncodePoint)| ==>
      Loaded(ReadPoints(EncodeFile(pts, EncodePoint)[..k]), before) == before
  {
    PointsFileRoundTrip(pts);
    if k < |EncodeFile(pts, EncodePoint)| {
      PointsFileTruncated(pts, k);
    }
  }

  /** A camera pose in the scene's axes; a zero quaternion gives NaN everywhere, here `Undefined`. */
  datatype ScenePose = Finite(pose: Pose) | Undefined

  function QuatOf(im: Image, asReal: Float64 -> real): Quat
    requires ImageShape(im)
  {
    Quat(asReal(im.qvec[0]), asReal(im.qvec[1]), asReal(im.qvec[2]), asReal(im.qvec[3]))
  }

  function TvecOf(im: Image, asReal: Float64 -> real): Vec3
    requires ImageShape(im)
  {
    Vec3(asReal(im.tvec[0]), asReal(im.tvec[1]), asReal(im.tvec[2]))
  }

  /** `colmap_to_blender_transform(image.qvec, image.tvec)`. */
  function PoseOf(im: Image, asReal: Float64 -> real, sqrt: real -> real): (r: ScenePose)
    requires ImageShape(im) && IsSqrt(sqrt)
    ensures r.Finite? <==> NormSq(QuatOf(im, asReal)) != 0.0
    ensures r.Finite? ==> IsRotation(r.pose.rotation)
  {
    var q := QuatOf(im, asReal);
    if NormSq(q) == 0.0 then Undefined else Finite(ColmapToBlender(q, TvecOf(im, asReal), sqrt))
  }

  /** `M @ xyz`, the point in the scene's axes. */
  function PointOf(pt: Point3D, asReal: Float64 -> real): (r: Vec3)
    requires PointShape(pt)
    ensures var p := Vec3(asReal(pt.xyz[0]), asReal(pt.xyz[1]), asReal(pt.xyz[2]));
      r.x == p.x && r.y == -p.z && r.z == p.y && Dot(r, r) == Dot(p, p)
  {
    var p := Vec3(asReal(pt.xyz[0]), asReal(pt.xyz[1]), asReal(pt.xyz[2]));
    RemapDot(p, p);
    Remap(p)
  }

  /** `rgb / 255.0`. */
  function ColourOf(pt: Point3D): (c: Vec3)
    requires PointShape(pt)
    ensures 0.0 <= c.x <= 1.0 && 0.0 <= c.y <= 1.0 && 0.0 <= c.z <= 1.0
    ensures c.x * 255.0 == pt.rgb[0] as real && c.y * 255.0 == pt.rgb[1] as real && c.z * 255.0 == pt.rgb[2] as real
  {
    Vec3(pt.rgb[0] as real / 255.0, pt.rgb[1] as real / 255.0, pt.rgb[2] as real / 255.0)
  }

  ghost predicate CamerasMap(m: OMap<int, Camera>)
  {
    OrderedMaps.Valid(m) && forall id :: id in m.entries ==> m.entries[id].id == id
  }

  ghost predicate ImagesMap(m: OMap<int, Image>)
  {
    OrderedMaps.Valid(m) && forall id :: id in m.entries ==> m.entries[id].id == id && ImageShape(m.entries[id])
  }

  ghost predicate PointsMap(m: OMap<int, Point3D>)
  {
    OrderedMaps.Valid(m) && forall id :: id in m.entries ==> m.entries[id].id == id && PointShape(m.entries[id])
  }

  lemma ImageValuesShaped(m: OMap<int, Image>)
    requires ImagesMap(m)
    ensures forall i :: 0 <= i < |Values(m)| ==> ImageShape(Values(m)[i])
  {
    var vs := Values(m);
    forall i | 0 <= i < |vs| ensures ImageShape(vs[i]) {
      var id := m.keys[i];
      assert id in m.entries;
      assert vs[i] == m.entries[id];
      assert ImageShape(m.entries[id]);
    }
  }

  lemma PointValuesShaped(m: OMap<int, Point3D>)
    requires PointsMap(m)
    ensures forall i :: 0 <= i < |Values(m)| ==> PointShape(Values(m)[i])
  {
    var vs := Values(m);
    forall i | 0 <= i < |vs| ensures PointShape(vs[i]) {
      var id := m.keys[i];
      assert id in m.entries;
      assert vs[i] == m.entries[id];
    }
  }

  /** Sorting the images keeps every one of them. */
  lemma SortKeepsShape(byName: bool, ims: seq<Image>)
    requires forall i :: 0 <= i < |ims| ==> ImageShape(ims[i])
    ensures forall i :: 0 <= i < |SortImages(byName, ims)| ==> ImageShape(SortImages(byName, ims)[i])
  {
    var ordered := SortImages(byName, ims);
    forall i | 0 <= i < |ordered| ensures ImageShape(ordered[i]) {
      assert ordered[i] in multiset(ims);
    }
  }

  /** The search loop of `load_reconstruction`: the first candidate that holds all three files. */
  method FindModelDir(root: Path, present: Path -> bool) returns (found: Option<Path>)
    ensures found == FirstComplete(Candidates(root), present)
  {
    var possiblePaths := Candidates(root);
    found := None;
    var i := 0;
    while i < |possiblePaths|
      invariant i <= |possiblePaths|
      invariant found.None? ==> FirstComplete(possiblePaths, present) == FirstComplete(possiblePaths[i..], present)
      invariant found.Some? ==> found == FirstComplete(possiblePaths, present)
    {
      assert possiblePaths[i..][1..] == possiblePaths[i + 1..];
      if Complete(possiblePaths[i], present) {
        found := Some(possiblePaths[i]);
        break;
      }
      i := i + 1;
    }
  }

  /** The loop of `get_camera_poses_for_blender`: one `(name, R, t)` per image, in the order given. */
  method PosesInOrder(ordered: seq<Image>, asReal: Float64 -> real, sqrt: real -> real)
    returns (poses: seq<(string, ScenePose)>)
    requires IsSqrt(sqrt) && forall i :: 0 <= i < |ordered| ==> ImageShape(ordered[i])
    ensures |poses| == |ordered|
    ensures forall i :: 0 <= i < |ordered| ==> poses[i] == (ordered[i].name, PoseOf(ordered[i], asReal, sqrt))
  {
    poses := [];
    for k := 0 to |ordered|
      invariant |poses| == k
      invariant forall i :: 0 <= i < k ==> poses[i] == (ordered[i].name, PoseOf(ordered[i], asReal, sqrt))
    {
      var image := ordered[k];
      poses := poses + [(image.name, PoseOf(image, asReal, sqrt))];
    }
  }

  class Loader {
    const root: Path
    var cameras: OMap<int, Camera>
    var images: OMap<int, Image>
    var points3d: OMap<int, Point3D>

    /** Three dicts keyed by id, each value stored under its own id, with the shape a read gives it. */
    ghost predicate Valid()
      reads this
    {
      CamerasMap(cameras) && ImagesMap(images) && PointsMap(points3d)
    }

    constructor (colmapPath: Path)
      ensures root == colmapPath && Valid()
      ensures cameras == Empty() && images == Empty() && points3d == Empty()
    {
      root := colmapPath;
      cameras := Empty();
      images := Empty();
      points3d := Empty();
    }

    /**
     * `load_reconstruction`: search the candidate directories in order, stop
     * at the first that holds all three files, and read each file on its own;
     * a file that fails to read leaves its field as it was.
     */
    method LoadReconstruction(present: Path -> bool, contents: Path -> seq<Byte>)
      requires Valid()
      modifies this
      ensures Valid()
      ensures FirstComplete(Candidates(root), present).None? ==>
        cameras == old(cameras) && images == old(images) && points3d == old(points3d)
      ensures FirstComplete(Candidates(root), present).Some? ==>
        var dir := FirstComplete(Candidates(root), present).value;
        && cameras == Loaded(ReadCameras(contents(dir + ["cameras.bin"])), old(cameras))
        && images == Loaded(ReadImages(contents(dir + ["images.bin"])), old(images))
        && points3d == Loaded(ReadPoints(contents(dir + ["points3D.bin"])), old(points3d))
    {
      var found := FindModelDir(root, present);
      if found.None? {
        return;
      }
      var dir := found.value;
      LoadCameras(contents(dir + ["cameras.bin"]));
      LoadImages(contents(dir + ["images.bin"]));
      LoadPoints(contents(dir + ["points3D.bin"]));
    }

    /** The first `try`: a file that reads replaces the cameras, one that fails leaves them. */
    method LoadCameras(bytes: seq<Byte>)
      requires Valid()
      modifies this
      ensures Valid()
      ensures cameras == Loaded(ReadCameras(bytes), old(cameras))
      ensures images == old(images) && points3d == old(points3d)
    {
      var read := ReadCamerasBinary(bytes);
      if read.Ok? {
        ReadFileYields(bytes, CameraAt, CameraId, c => true);
        cameras := read.value;
      }
    }

    /** The second `try`, for the images. */
    method LoadImages(bytes: seq<Byte>)
      requires Valid()
      modifies this
      ensures Valid()
      ensures images == Loaded(ReadImages(bytes), old(images))
      ensures cameras == old(cameras) && points3d == old(points3d)
    {
      var read := ReadImagesBinary(bytes);
      if read.Ok? {
        ImagesShaped();
        ReadFileYields(bytes, ImageAt, ImageId, ImageShape);
        images := read.value;
      }
    }

    /** The third `try`, for the points. */
    method LoadPoints(bytes: seq<Byte>)
      requires Valid()
      modifies this
      ensures Valid()
      ensures points3d == Loaded(ReadPoints(bytes), old(points3d))
      ensures cameras == old(cameras) && images == old(images)
    {
      var read := ReadPoints3dBinary(bytes);
      if read.Ok? {
        PointsShaped();
        ReadFileYields(bytes, PointAt, PointId, PointShape);
        points3d := read.value;
      }
    }

    /**
     * `get_camera_poses_for_blender`: one `(name, R, t)` per image, the
     * images sorted by name when `sort` is "name" and by id otherwise.
     */
    method CameraPosesForBlender(sort: string, asReal: Float64 -> real, sqrt: real -> real)
      returns (poses: seq<(string, ScenePose)>)
      requires Valid() && IsSqrt(sqrt)
      ensures var ordered := SortImages(sort == "name", Values(images));
        && multiset(ordered) == multiset(Values(images))
        && Ordered(sort == "name", ordered)
        && (forall i :: 0 <= i < |ordered| ==> ImageShape(ordered[i]))
        && |poses| == |ordered|
        && forall i :: 0 <= i < |ordered| ==> poses[i] == (ordered[i].name, PoseOf(ordered[i], asReal, sqrt))
    {
      var all := Values(images);
      ImageValuesShaped(images);
      var ordered := SortImages(sort == "name", all);
      SortKeepsShape(sort == "name", all);
      SortOrdered(sort == "name", all);
      if |images.keys| == 0 {
        return [];
      }
      poses := PosesInOrder(ordered, asReal, sqrt);
    }

    /** `get_point_cloud`: each point's position in the scene's axes and its colour scaled to [0, 1]. */
    method PointCloud(asReal: Float64 -> real) returns (points: seq<Vec3>, colors: seq<Vec3>)
      requires Valid()
      ensures var all := Values(points3d);
        && (forall i :: 0 <= i < |all| ==> PointShape(all[i]))
        && |points| == |colors| == |all|
        && (forall i :: 0 <= i < |all| ==> points[i] == PointOf(all[i], asReal) && colors[i] == ColourOf(all[i]))
    {
      var all := Values(points3d);
      PointValuesShaped(points3d);
      if |points3d.keys| == 0 {
        return [], [];
      }
      points, colors := [], [];
      for k := 0 to |all|
        invariant |points| == |colors| == k
        invariant forall i :: 0 <= i < k ==> points[i] == PointOf(all[i], asReal) && colors[i] == ColourOf(all[i])
      {
        var point3d := all[k];
        points := points + [PointOf(point3d, asReal)];
        colors := colors + [ColourOf(point3d)];
      }
    }
  }
}

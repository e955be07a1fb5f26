# buildify-3dgs ingestion core in Dafny

This project models the Python ingestion layer of the Blender integration in
buildify-3dgs. It has three parts:

- **The COLMAP reconstruction reader and loader** (`colmap_parser.py`):
  - `read_next_bytes` and the three `read_*_binary` readers of `cameras.bin`, `images.bin` and `points3D.bin`. Each is a method that advances a cursor over the file's bytes and is proved equal to a decoding function over those bytes.
  - The decoders have writers beside them, and the files round-trip through them.
  - The quaternion-to-rotation conversion and the camera-to-world pose conversion with the axis remap (x, y, z) → (x, −z, y).
  - The `COLMAPLoader` class, with its three id-keyed maps that `load_reconstruction` fills in place, its model-directory search, `get_camera_poses_for_blender` (a stable sort by id or name) and `get_point_cloud`.
- **The 3D Gaussian splat side** (`gaussian_splatting.py`):
  - `load_ply_gaussian_splats`: the PLY header scan, the `read_value` type table in both byte orders, binary and ASCII records, name-driven attribute lists, the logistic colours, `np.array` conversion and `scale`/`rotation` grouping.
  - The subsampling block of `create_gaussian_splat_points`.
  - The centroid/extent/median/clamp arithmetic of `align_gaussian_splats_with_colmap`.
  - The centroid-only loop of `simple_icp_alignment`.
- **The intrinsics selection** in `main.py` for the first camera.

Python dicts keep insertion order, which matters for the first camera and for the order of the point cloud. They are modelled as `OrderedMaps.OMap`: a key sequence plus a map. Assigning to a key that exists keeps its position.

The files are byte sequences (`Bytes.Byte`). Outcomes are explicit:

- A COLMAP reader returns a `Result` whose error is `Truncated` or `NonAsciiName`.
- The PLY loader returns an `Outcome`: `Done`, `Raised(e)` with the Python exception kind, or `Diverges` for a header without `end_header`, where the Python loop never ends.

Floating-point decoding, `sqrt`, `exp`, the vector norm, the random index choice and the file system are parameters. See "Left out".

Where the code and its design notes disagree, the model follows the code:

- A truncated COLMAP file gives no map at all. `load_reconstruction` then keeps that artifact's previous map, which is empty for a fresh loader. No partial map is returned.
- A short ASCII PLY line is not rejected as truncated. `zip` shortens the record, and the load raises an index error only at the first non-axis property past the last token (`PlyGather.DistributeReach`).
- Aligning a splat cloud with itself does not give a zero translation: the splats are axis-remapped before their centroid is taken. `Alignment.TranslationAligns` states what the code does guarantee.
- The subsample length test compares with the subsampled length (see "Findings").
- `simple_icp_alignment` is documented as returning an alignment translation. With its default of 10 passes it always returns a zero translation (see "Findings").

## Model

| member | source | states |
|---|---|---|
| `Bytes.LittleEndianInjective` | experimental_blender_integration/blender_colmap_3dgs/colmap_parser.py:34-37 | writing back the little-endian value of any byte string gives the same bytes |
| `Bytes.TwosComplement` | experimental_blender_integration/blender_colmap_3dgs/colmap_parser.py:46-48 | a signed `i`/`q` field lies in the n-byte signed range and is negative exactly when the top bit is set |
| `Bytes.U64RoundTrip` | experimental_blender_integration/blender_colmap_3dgs/colmap_parser.py:44 | a `<Q` count written as 8 bytes is read back as itself |
| `Bytes.I32RoundTrip` | experimental_blender_integration/blender_colmap_3dgs/colmap_parser.py:46-48 | an `i` field written as 4 bytes is read back as itself |
| `Bytes.I64RoundTrip` | experimental_blender_integration/blender_colmap_3dgs/colmap_parser.py:100-101 | a `q` field written as 8 bytes is read back as itself |
| `Bytes.F64RoundTrip` | experimental_blender_integration/blender_colmap_3dgs/colmap_parser.py:70 | a `d` field's 8-byte pattern is read back unchanged |
| `ByteFiles.LineEndNewline` | experimental_blender_integration/blender_colmap_3dgs/gaussian_splatting.py:29 | `readline` stops just after the first newline, or at end of file when there is none |
| `ByteFiles.ByteFile.Read` | experimental_blender_integration/blender_colmap_3dgs/colmap_parser.py:36 | `f.read(n)` returns the next n bytes, or fewer at end of file, and moves the cursor past them |
| `ByteFiles.ByteFile.ReadLine` | experimental_blender_integration/blender_colmap_3dgs/gaussian_splatting.py:29 | `f.readline()` returns the bytes up to and including the next newline and moves the cursor past them |
| `Text.DecodeAsciiChars` | experimental_blender_integration/blender_colmap_3dgs/gaussian_splatting.py:29 | `.decode('ascii')` succeeds exactly when every byte is below 128, and keeps each byte as its character |
| `Text.StripPadded` | experimental_blender_integration/blender_colmap_3dgs/gaussian_splatting.py:29 | `.strip()` removes exactly the surrounding whitespace |
| `Text.SplitTokens` | experimental_blender_integration/blender_colmap_3dgs/gaussian_splatting.py:43 | every piece `.split()` returns is a non-empty run without whitespace |
| `Text.SplitJoin` | experimental_blender_integration/blender_colmap_3dgs/gaussian_splatting.py:50-52 | `.split()` of tokens joined by spaces gives back the tokens |
| `Text.ParseIntShow` | experimental_blender_integration/blender_colmap_3dgs/gaussian_splatting.py:48 | `int()` of the decimal text of any integer gives that integer |
| `Text.ParseNegative` | experimental_blender_integration/blender_colmap_3dgs/gaussian_splatting.py:99 | `int()` of `-` and a digit group is the negated digit value |
| `OrderedMaps.Insert` | experimental_blender_integration/blender_colmap_3dgs/colmap_parser.py:71 | `d[k] = v` maps k to v; a new key goes last and an existing key keeps its place |
| `OrderedMaps.Values` | experimental_blender_integration/blender_colmap_3dgs/colmap_parser.py:275 | `.values()` lists one value per key, in key order |
| `OrderedMaps.FromRecordsKeys` | experimental_blender_integration/blender_colmap_3dgs/colmap_parser.py:71 | a dict filled from n records has at most n keys, and exactly the records' ids |
| `OrderedMaps.FromRecordsValues` | experimental_blender_integration/blender_colmap_3dgs/colmap_parser.py:103 | every stored value is one of the records and is stored under its own id |
| `OrderedMaps.FromRecordsLastWins` | experimental_blender_integration/blender_colmap_3dgs/colmap_parser.py:131 | a record whose id is not repeated later is the one stored under that id |
| `OrderedMaps.FromRecordsFirstKey` | experimental_blender_integration/main.py:80 | the first key of the dict is the id of the first record read |
| `RecordStreams.Records` | experimental_blender_integration/blender_colmap_3dgs/colmap_parser.py:45 | n successful record decodes give exactly n records; a failing first decode fails the loop with its error |
| `RecordStreams.RecordsRoundTrip` | experimental_blender_integration/blender_colmap_3dgs/colmap_parser.py:86 | records written back to back are decoded back, ending just after the last one |
| `RecordStreams.RecordsPrefix` | experimental_blender_integration/blender_colmap_3dgs/colmap_parser.py:119 | cutting the bytes before the last record ends fails the loop; cutting after leaves the result unchanged |
| `RecordStreams.ReadFile` | experimental_blender_integration/blender_colmap_3dgs/colmap_parser.py:42-45 | a file shorter than the count fails; success means all counted records decoded; the dict has at most count keys, exactly the decoded ids |
| `RecordStreams.ReadFileDone` | experimental_blender_integration/blender_colmap_3dgs/colmap_parser.py:116-139 | when all counted records decode, the result is the dict filled from them in file order |
| `RecordStreams.ReadFileFails` | experimental_blender_integration/blender_colmap_3dgs/colmap_parser.py:83-111 | when a record fails, the whole reader fails with that error and no map is returned |
| `RecordStreams.ReadFileLastWins` | experimental_blender_integration/blender_colmap_3dgs/colmap_parser.py:131 | a later record with a repeated id overwrites the earlier one |
| `RecordStreams.ReadFileYields` | experimental_blender_integration/blender_colmap_3dgs/colmap_parser.py:103 | every value in a read map has the decoder's shape and is stored under its own id |
| `RecordStreams.FileLayout` | experimental_blender_integration/blender_colmap_3dgs/colmap_parser.py:44-45 | a written file is the u64 record count followed by the records |
| `RecordStreams.FileRoundTrip` | experimental_blender_integration/blender_colmap_3dgs/colmap_parser.py:40-78 | reading a written file gives the dict filled from the written records |
| `RecordStreams.FileTruncated` | experimental_blender_integration/blender_colmap_3dgs/colmap_parser.py:34-37 | any proper prefix of a written file fails to read |
| `ColmapFormat.ModelOf` | experimental_blender_integration/blender_colmap_3dgs/colmap_parser.py:49-61 | the model is UNKNOWN exactly for codes outside 0..10 |
| `ColmapFormat.NumParams` | experimental_blender_integration/blender_colmap_3dgs/colmap_parser.py:66-68 | a model takes no parameters exactly when it is UNKNOWN, and never more than 12 |
| `ColmapFormat.NumParamsTable` | experimental_blender_integration/blender_colmap_3dgs/colmap_parser.py:66-68 | the parameter count of each code is the table {0→3, 1→4, 2→4, 3→5, 4→8, 5→8, 6→12, 7→5, 8→4, 9→5, 10→12, other→0} |
| `ColmapFormat.ModelCodeRoundTrip` | experimental_blender_integration/blender_colmap_3dgs/colmap_parser.py:49-61 | each model has a code that decodes back to it |
| `ColmapFormat.ModelNamesDistinct` | experimental_blender_integration/blender_colmap_3dgs/colmap_parser.py:49-61 | two models have the same name string exactly when they are the same model |
| `ColmapFormat.CameraAt` | experimental_blender_integration/blender_colmap_3dgs/colmap_parser.py:46-77 | a camera record decodes exactly when 24 + 8·k bytes remain, where k is its model's parameter count; it then has k parameters and ends 24 + 8·k bytes on; otherwise it fails as truncated |
| `ColmapFormat.CameraBlockRoundTrip` | experimental_blender_integration/blender_colmap_3dgs/colmap_parser.py:46-64 | the 24-byte camera block gives back id, model, width and height |
| `ColmapFormat.FloatsRoundTrip` | experimental_blender_integration/blender_colmap_3dgs/colmap_parser.py:70 | k doubles written back to back are read back as the same k values |
| `ColmapFormat.CameraRoundTripAt` | experimental_blender_integration/blender_colmap_3dgs/colmap_parser.py:46-77 | a written camera, with its model's number of parameters, is decoded back and the cursor ends just after it |
| `ColmapFormat.CameraRoundTrip` | experimental_blender_integration/blender_colmap_3dgs/colmap_parser.py:46-77 | the camera decoder inverts the camera writer at every offset |
| `ColmapFormat.CameraPrefixAt` | experimental_blender_integration/blender_colmap_3dgs/colmap_parser.py:46-70 | a camera cut short fails; bytes after its end do not change it |
| `ColmapFormat.NameAtBytes` | experimental_blender_integration/blender_colmap_3dgs/colmap_parser.py:93-97 | a decoded name is the bytes up to, but excluding, the first 0 byte, all below 128, and the cursor ends after the 0 |
| `ColmapFormat.NameUnterminated` | experimental_blender_integration/blender_colmap_3dgs/colmap_parser.py:94-97 | a name without a terminating 0 byte fails |
| `ColmapFormat.NameNonAscii` | experimental_blender_integration/blender_colmap_3dgs/colmap_parser.py:96 | a byte of 128 or more before the terminator fails the name, as single-byte `decode("utf-8")` does |
| `ColmapFormat.NameRoundTrip` | experimental_blender_integration/blender_colmap_3dgs/colmap_parser.py:93-97 | an ASCII name without 0 bytes, written with its terminator, is decoded back |
| `ColmapFormat.PointIdsAtIndex` | experimental_blender_integration/blender_colmap_3dgs/colmap_parser.py:100-101 | entry j of `point3d_ids` is the i64 third field of triple j |
| `ColmapFormat.PointIdsFrom` | experimental_blender_integration/blender_colmap_3dgs/colmap_parser.py:99-101 | the id list takes the count m and 24·m bytes after it; otherwise it fails as truncated |
| `ColmapFormat.ImageAt` | experimental_blender_integration/blender_colmap_3dgs/colmap_parser.py:87-110 | a decoded image record spans at least its 64-byte block, a terminator and a count; its fields are given by `ImageBlockRoundTrip` (id, quaternion, translation, camera id), `NameAtBytes` (the name) and `PointIdsAtIndex` (the point ids) |
| `ColmapFormat.ImageNameError` | experimental_blender_integration/blender_colmap_3dgs/colmap_parser.py:93-97 | an image whose name fails fails with the name's error |
| `ColmapFormat.ImageBlockRoundTrip` | experimental_blender_integration/blender_colmap_3dgs/colmap_parser.py:87-91 | the 64-byte block gives back id, quaternion (w, x, y, z), translation and camera id |
| `ColmapFormat.PointIdsRoundTrip` | experimental_blender_integration/blender_colmap_3dgs/colmap_parser.py:99-101 | written point ids, each in the third field of a triple, are decoded back |
| `ColmapFormat.ImageRoundTripAt` | experimental_blender_integration/blender_colmap_3dgs/colmap_parser.py:87-110 | a written image is decoded back and the cursor ends just after it |
| `ColmapFormat.ImageRoundTrip` | experimental_blender_integration/blender_colmap_3dgs/colmap_parser.py:87-110 | the image decoder inverts the image writer at every offset |
| `ColmapFormat.ImagePrefixAt` | experimental_blender_integration/blender_colmap_3dgs/colmap_parser.py:87-101 | an image cut short fails; bytes after its end do not change it |
| `ColmapFormat.TrackAtIndex` | experimental_blender_integration/blender_colmap_3dgs/colmap_parser.py:127-129 | entry j of `image_ids` is i32 slot 2j, and entry j of `point2d_idxs` is slot 2j + 1 |
| `ColmapFormat.TrackFrom` | experimental_blender_integration/blender_colmap_3dgs/colmap_parser.py:126-129 | both track columns have the track length m and span 8 + 8·m bytes; otherwise it fails as truncated |
| `ColmapFormat.PointAt` | experimental_blender_integration/blender_colmap_3dgs/colmap_parser.py:120-138 | a decoded point spans at least its 43-byte block and the track count, and a failure is always truncation; its fields are given by `PointBlockRoundTrip` (id, xyz, rgb, error) and `TrackAtIndex` (the two track columns) |
| `ColmapFormat.PointBlockRoundTrip` | experimental_blender_integration/blender_colmap_3dgs/colmap_parser.py:120-124 | the 43-byte block gives back id, xyz, the three rgb bytes and the error |
| `ColmapFormat.TrackRoundTrip` | experimental_blender_integration/blender_colmap_3dgs/colmap_parser.py:126-129 | a written track of equal-length columns is decoded back |
| `ColmapFormat.PointRoundTripAt` | experimental_blender_integration/blender_colmap_3dgs/colmap_parser.py:120-138 | a written point is decoded back and the cursor ends just after it |
| `ColmapFormat.PointRoundTrip` | experimental_blender_integration/blender_colmap_3dgs/colmap_parser.py:120-138 | the point decoder inverts the point writer at every offset |
| `ColmapFormat.PointPrefixAt` | experimental_blender_integration/blender_colmap_3dgs/colmap_parser.py:120-129 | a point cut short fails; bytes after its end do not change it |
| `ColmapFormat.ImagesShaped` | experimental_blender_integration/blender_colmap_3dgs/colmap_parser.py:89-90 | every decoded image has a 4-component quaternion and a 3-component translation |
| `ColmapFormat.PointsShaped` | experimental_blender_integration/blender_colmap_3dgs/colmap_parser.py:122-123 | every decoded point has 3 coordinates and 3 colour bytes |
| `ColmapFormat.CamerasFileRoundTrip` | experimental_blender_integration/blender_colmap_3dgs/colmap_parser.py:40-78 | reading a written `cameras.bin` gives the id-keyed dict of its cameras |
| `ColmapFormat.CamerasFileTruncated` | experimental_blender_integration/blender_colmap_3dgs/colmap_parser.py:40-78 | every proper prefix of a written `cameras.bin` fails |
| `ColmapFormat.ImagesFileRoundTrip` | experimental_blender_integration/blender_colmap_3dgs/colmap_parser.py:81-111 | reading a written `images.bin` gives the id-keyed dict of its images |
| `ColmapFormat.ImagesFileTruncated` | experimental_blender_integration/blender_colmap_3dgs/colmap_parser.py:81-111 | every proper prefix of a written `images.bin` fails |
| `ColmapFormat.PointsFileRoundTrip` | experimental_blender_integration/blender_colmap_3dgs/colmap_parser.py:114-139 | reading a written `points3D.bin` gives the id-keyed dict of its points |
| `ColmapFormat.PointsFileTruncated` | experimental_blender_integration/blender_colmap_3dgs/colmap_parser.py:114-139 | every proper prefix of a written `points3D.bin` fails |
| `ColmapReader.ReadNextBytes` | experimental_blender_integration/blender_colmap_3dgs/colmap_parser.py:34-37 | succeeds exactly when n bytes remain, returns them and advances by n; otherwise it fails as truncated, as `struct.unpack` of a short read does |
| `ColmapReader.ReadCamera` | experimental_blender_integration/blender_colmap_3dgs/colmap_parser.py:46-77 | reading one camera at the cursor gives what the camera decoder gives, and leaves the cursor at its end |
| `ColmapReader.ReadCamerasBinary` | experimental_blender_integration/blender_colmap_3dgs/colmap_parser.py:40-78 | the cursor loop over the file returns exactly the decoded dict of cameras, or the decoding error |
| `ColmapReader.ReadImageName` | experimental_blender_integration/blender_colmap_3dgs/colmap_parser.py:93-97 | the byte-at-a-time loop returns the name the name decoder gives and stops after the 0 byte |
| `ColmapReader.ReadPointIds` | experimental_blender_integration/blender_colmap_3dgs/colmap_parser.py:99-101 | the count and triples read at the cursor give the decoded id list |
| `ColmapReader.ReadImage` | experimental_blender_integration/blender_colmap_3dgs/colmap_parser.py:87-110 | reading one image at the cursor gives what the image decoder gives |
| `ColmapReader.ReadImagesBinary` | experimental_blender_integration/blender_colmap_3dgs/colmap_parser.py:81-111 | the cursor loop over the file returns exactly the decoded dict of images, or the decoding error |
| `ColmapReader.ReadTrack` | experimental_blender_integration/blender_colmap_3dgs/colmap_parser.py:126-129 | the two track columns read at the cursor are the decoded ones |
| `ColmapReader.ReadPoint` | experimental_blender_integration/blender_colmap_3dgs/colmap_parser.py:120-138 | reading one point at the cursor gives what the point decoder gives |
| `ColmapReader.ReadPoints3dBinary` | experimental_blender_integration/blender_colmap_3dgs/colmap_parser.py:114-139 | the cursor loop over the file returns exactly the decoded dict of points, or the decoding error |
| `Geometry.QuatToRotation` | experimental_blender_integration/blender_colmap_3dgs/colmap_parser.py:142-152 | for a non-zero quaternion, the matrix of the normalised quaternion is a rotation: orthonormal rows and columns, determinant 1 |
| `Geometry.UnitRotation` | experimental_blender_integration/blender_colmap_3dgs/colmap_parser.py:145-151 | the matrix formula of a unit quaternion is a rotation |
| `Geometry.NormalizedIsUnit` | experimental_blender_integration/blender_colmap_3dgs/colmap_parser.py:144 | dividing by the norm gives a unit quaternion |
| `Geometry.HomogeneousDet` | experimental_blender_integration/blender_colmap_3dgs/colmap_parser.py:147-151 | for any (w, x, y, z), the homogeneous form of the formula has determinant ‖q‖⁶ |
| `Geometry.RotationInverse` | experimental_blender_integration/blender_colmap_3dgs/colmap_parser.py:174 | the transpose of a rotation is its inverse on both sides |
| `Geometry.TransposeRotation` | experimental_blender_integration/blender_colmap_3dgs/colmap_parser.py:174 | `R.T` of a rotation is a rotation |
| `Geometry.Remap` | experimental_blender_integration/blender_colmap_3dgs/colmap_parser.py:166-172 | the remap matrix sends (x, y, z) to (x, −z, y) |
| `Geometry.RemapDot` | experimental_blender_integration/blender_colmap_3dgs/colmap_parser.py:166-178 | the remap keeps dot products, so it keeps lengths and angles |
| `Geometry.AxisRemapIsRotation` | experimental_blender_integration/blender_colmap_3dgs/colmap_parser.py:166-172 | the remap matrix is a rotation |
| `Geometry.RemapRows` | experimental_blender_integration/blender_colmap_3dgs/colmap_parser.py:177 | `M @ R` remaps each column of R |
| `Geometry.RemapRowsRotation` | experimental_blender_integration/blender_colmap_3dgs/colmap_parser.py:177 | `M @ R` of a rotation is a rotation |
| `Geometry.ColmapToBlender` | experimental_blender_integration/blender_colmap_3dgs/colmap_parser.py:155-180 | the Blender rotation is M·Rᵀ and is a rotation |
| `Geometry.ColmapToBlenderInverts` | experimental_blender_integration/blender_colmap_3dgs/colmap_parser.py:158-178 | mapping a world point to the camera with (R, t) and back with the returned pose gives the remapped world point |
| `Geometry.CameraCentre` | experimental_blender_integration/blender_colmap_3dgs/colmap_parser.py:175-178 | the returned translation is the remapped camera centre, the point that (R, t) sends to the origin |
| `ColmapLoader.FirstComplete` | experimental_blender_integration/blender_colmap_3dgs/colmap_parser.py:206-216 | the first directory holding all three files is chosen; none is chosen exactly when no directory has all three |
| `ColmapLoader.FindModelDir` | experimental_blender_integration/blender_colmap_3dgs/colmap_parser.py:195-216 | the loop over root/sparse/0, root/sparse and root returns the first complete directory |
| `ColmapLoader.LoadedCamerasFile` | experimental_blender_integration/blender_colmap_3dgs/colmap_parser.py:223-227 | a whole `cameras.bin` replaces the map; a truncated one leaves the previous map |
| `ColmapLoader.LoadedImagesFile` | experimental_blender_integration/blender_colmap_3dgs/colmap_parser.py:229-233 | a whole `images.bin` replaces the map; a truncated one leaves the previous map |
| `ColmapLoader.LoadedPointsFile` | experimental_blender_integration/blender_colmap_3dgs/colmap_parser.py:235-239 | a whole `points3D.bin` replaces the map; a truncated one leaves the previous map |
| `ColmapLoader.PoseOf` | experimental_blender_integration/blender_colmap_3dgs/colmap_parser.py:256 | an image's pose is defined exactly when its quaternion is non-zero, and its rotation is then a rotation |
| `ColmapLoader.PointOf` | experimental_blender_integration/blender_colmap_3dgs/colmap_parser.py:276 | a point in Blender coordinates is (x, −z, y), at the same distance from the origin |
| `ColmapLoader.ColourOf` | experimental_blender_integration/blender_colmap_3dgs/colmap_parser.py:278 | each colour channel is the byte divided by 255, in [0, 1] |
| `ColmapLoader.PosesInOrder` | experimental_blender_integration/blender_colmap_3dgs/colmap_parser.py:254-258 | one (name, pose) per image, in the given order |
| `ColmapLoader.Loader.LoadReconstruction` | experimental_blender_integration/blender_colmap_3dgs/colmap_parser.py:192-239 | with no complete directory, all three maps are kept. Otherwise each map is that file's decoded dict, or kept when its read fails, independently of the other two |
| `ColmapLoader.Loader.LoadCameras` | experimental_blender_integration/blender_colmap_3dgs/colmap_parser.py:223-227 | sets only `cameras`, to the decoded dict or its previous value on error |
| `ColmapLoader.Loader.LoadImages` | experimental_blender_integration/blender_colmap_3dgs/colmap_parser.py:229-233 | sets only `images`, to the decoded dict or its previous value on error |
| `ColmapLoader.Loader.LoadPoints` | experimental_blender_integration/blender_colmap_3dgs/colmap_parser.py:235-239 | sets only `points3d`, to the decoded dict or its previous value on error |
| `ColmapLoader.Loader.CameraPosesForBlender` | experimental_blender_integration/blender_colmap_3dgs/colmap_parser.py:241-258 | the images are a permutation of the map's values, ordered by name when `sort == "name"` and by id otherwise, with one (name, pose) each; no images gives `[]` |
| `ColmapLoader.Loader.PointCloud` | experimental_blender_integration/blender_colmap_3dgs/colmap_parser.py:260-280 | one remapped point and one rgb/255 colour per stored point, in dict order, as parallel lists |
| `ImageSort.NameLeqTotal` | experimental_blender_integration/blender_colmap_3dgs/colmap_parser.py:250 | string order on names is total |
| `ImageSort.NameLeqTransitive` | experimental_blender_integration/blender_colmap_3dgs/colmap_parser.py:250 | string order on names is transitive |
| `ImageSort.SortImages` | experimental_blender_integration/blender_colmap_3dgs/colmap_parser.py:249-252 | `sorted` returns a permutation of its input |
| `ImageSort.SortOrdered` | experimental_blender_integration/blender_colmap_3dgs/colmap_parser.py:249-252 | the result is ordered by the chosen key |
| `ImageSort.SortStable` | experimental_blender_integration/blender_colmap_3dgs/colmap_parser.py:249-252 | images with equal keys keep their relative order, as Python's `sorted` guarantees |
| `Intrinsics.IntrinsicsOf` | experimental_blender_integration/main.py:81-107 | width, height and model name are copied. fx is params[0] when there are params, else None. cx and cy are set for SIMPLE_PINHOLE with at least 3 params or a four-parameter model with at least 4. fy is params[1] in the second case and fx otherwise. (cx, cy) is (params[1], params[2]) for SIMPLE_PINHOLE and (params[2], params[3]) for the four-parameter models |
| `Intrinsics.CameraParamsOf` | experimental_blender_integration/main.py:78-80 | no cameras gives the empty record; otherwise the record of the first camera in dict order |
| `Intrinsics.ReadCameraIntrinsics` | experimental_blender_integration/main.py:85-98 | for a camera as read from the file: cx is set exactly for SIMPLE_PINHOLE and the four-parameter models, with (cx, cy) = (params[1], params[2]) and (params[2], params[3]) respectively, and fx exactly for known models |
| `Intrinsics.CamerasCarryTheirParams` | experimental_blender_integration/blender_colmap_3dgs/colmap_parser.py:66-76 | every decoded camera has its model's parameter count |
| `Intrinsics.LastWithId` | experimental_blender_integration/blender_colmap_3dgs/colmap_parser.py:71 | the last record with a given id, or none |
| `Intrinsics.FirstCameraOfFile` | experimental_blender_integration/main.py:78-107 | for a written `cameras.bin`, the record comes from the last camera carrying the first camera's id |
| `PlyHeader.HeaderLineEffects` | experimental_blender_integration/blender_colmap_3dgs/gaussian_splatting.py:42-55 | only an exact `end_header` ends the scan. Only `element vertex` lines change the count. A `property` line appends (T, NAME) from tokens 1 and 2 |
| `PlyHeader.ParseHeader` | experimental_blender_integration/blender_colmap_3dgs/gaussian_splatting.py:27-55 | a finished scan leaves a proper suffix of the file as the body |
| `PlyHeader.ReadHeader` | experimental_blender_integration/blender_colmap_3dgs/gaussian_splatting.py:29-55 | the readline loop ends as the header scan says and leaves the cursor at the body |
| `PlyHeader.EndOfFileRepeats` | experimental_blender_integration/blender_colmap_3dgs/gaussian_splatting.py:39-40 | at end of file `readline` keeps returning the empty line, which changes nothing, so a header without `end_header` never ends |
| `PlyHeader.HeaderRoundTrip` | experimental_blender_integration/blender_colmap_3dgs/gaussian_splatting.py:29-55 | a written header (`ply`, format, `element vertex`, properties, `end_header`) is parsed back and the body is left untouched |
| `PlyHeader.MagicScan` | experimental_blender_integration/blender_colmap_3dgs/gaussian_splatting.py:29-31 | after a `ply` first line the scan starts from the initial header |
| `PlyHeader.FormatFlags` | experimental_blender_integration/blender_colmap_3dgs/gaussian_splatting.py:43-46 | binary mode is set when the format token contains `binary`, and little-endian when it contains `little` |
| `PlyHeader.FormatStep` | experimental_blender_integration/blender_colmap_3dgs/gaussian_splatting.py:42-46 | a format line sets the binary flag and the byte order |
| `PlyHeader.ElementStep` | experimental_blender_integration/blender_colmap_3dgs/gaussian_splatting.py:47-48 | an `element vertex n` line sets the count to n |
| `PlyHeader.PropertyStep` | experimental_blender_integration/blender_colmap_3dgs/gaussian_splatting.py:49-53 | a `property T NAME` line appends (T, NAME) |
| `PlyHeader.EndStep` | experimental_blender_integration/blender_colmap_3dgs/gaussian_splatting.py:54-55 | `end_header` ends the scan with the header unchanged |
| `PlyValues.KindsOf` | experimental_blender_integration/blender_colmap_3dgs/gaussian_splatting.py:90-91 | one value kind per declared property, in order |
| `PlyValues.WidthTable` | experimental_blender_integration/blender_colmap_3dgs/gaussian_splatting.py:66-84 | width 1 for uchar/uint8/char/int8, 2 for ushort/uint16/short/int16, 8 for double/float64 and 4 for every other token; the integer tokens are exactly the twelve that ASCII mode sends through `int()` |
| `PlyValues.IntegerRoundTrip` | experimental_blender_integration/blender_colmap_3dgs/gaussian_splatting.py:71-82 | an integer in range, packed in either byte order, is unpacked as itself |
| `PlyValues.ValueAtWidth` | experimental_blender_integration/blender_colmap_3dgs/gaussian_splatting.py:66-84 | a value succeeds exactly when its width remains, and consumes exactly that width |
| `PlyValues.AsciiIntegerRoundTrip` | experimental_blender_integration/blender_colmap_3dgs/gaussian_splatting.py:98-99 | a decimal integer token of an integer type reads as `float()` of that integer, which is the integer itself wherever the double is exact, and raises `OverflowError` where `float()` of the integer does |
| `PlyValues.AsciiFloat` | experimental_blender_integration/blender_colmap_3dgs/gaussian_splatting.py:100-101 | a token of any other type is what `float()` makes of it, and fails where it fails |
| `PlyRecords.ReadValue` | experimental_blender_integration/blender_colmap_3dgs/gaussian_splatting.py:66-84 | `read_value` returns the decoded value and consumes its width, or fails at end of file |
| `PlyRecords.BinaryLayout` | experimental_blender_integration/blender_colmap_3dgs/gaussian_splatting.py:88-91 | a binary record succeeds exactly when the sum of the declared widths remains, and consumes exactly that sum |
| `PlyRecords.BinaryField` | experimental_blender_integration/blender_colmap_3dgs/gaussian_splatting.py:88-91 | value j is decoded from the bytes between the widths of the first j and j + 1 properties |
| `PlyRecords.ReadBinaryRecord` | experimental_blender_integration/blender_colmap_3dgs/gaussian_splatting.py:88-91 | the per-property loop gives the binary record and leaves the cursor after it |
| `PlyRecords.AsciiFields` | experimental_blender_integration/blender_colmap_3dgs/gaussian_splatting.py:97-101 | the zipped conversion succeeds exactly when every token converts, giving each converted value in order |
| `PlyRecords.AsciiRecordLength` | experimental_blender_integration/blender_colmap_3dgs/gaussian_splatting.py:94-97 | an ASCII record has min(properties, tokens) values: `zip` shortens and never pads |
| `PlyRecords.ReadAsciiRecord` | experimental_blender_integration/blender_colmap_3dgs/gaussian_splatting.py:94-101 | reading one line and converting its tokens gives the ASCII record |
| `PlyGather.Position` | experimental_blender_integration/blender_colmap_3dgs/gaussian_splatting.py:104 | the position is the first three values, or all of them when fewer |
| `PlyGather.InitialColumnsShape` | experimental_blender_integration/blender_colmap_3dgs/gaussian_splatting.py:61-63 | every key of the initial dict is a declared property not named x, y or z, and starts with an empty list |
| `PlyGather.DistributeReach` | experimental_blender_integration/blender_colmap_3dgs/gaussian_splatting.py:108-118 | distributing a record fails exactly at a non-axis property whose index is past the record's values, and it fails with an index error |
| `PlyGather.DistributeColumn` | experimental_blender_integration/blender_colmap_3dgs/gaussian_splatting.py:109-118 | each list gains the record's values at the positions of the properties with its name |
| `PlyGather.DistributeRecord` | experimental_blender_integration/blender_colmap_3dgs/gaussian_splatting.py:108-118 | the per-property loop gives the distribution of one record |
| `PlyGather.MakeColumns` | experimental_blender_integration/blender_colmap_3dgs/gaussian_splatting.py:61-63 | the initialisation loop gives the initial dict of empty lists |
| `PlyGather.ReadVertices` | experimental_blender_integration/blender_colmap_3dgs/gaussian_splatting.py:87-118 | the record loop gives the gathered positions and lists, or the first error, and leaves the cursor after the last record |
| `PlyGather.ReadRecord` | experimental_blender_integration/blender_colmap_3dgs/gaussian_splatting.py:88-101 | one record is read in the header's mode |
| `PlyGather.ProgressPosition` | experimental_blender_integration/blender_colmap_3dgs/gaussian_splatting.py:104-105 | after i records there are i positions, and position k is the first three values of record k, whatever their names |
| `PlyGather.ProgressKeys` | experimental_blender_integration/blender_colmap_3dgs/gaussian_splatting.py:114-115 | the record loop adds no key beyond the initial ones |
| `PlyGather.ProgressColumn` | experimental_blender_integration/blender_colmap_3dgs/gaussian_splatting.py:104-118 | each list is the concatenation, over records, of that record's values under its name |
| `PlyGather.ProgressColumnLength` | experimental_blender_integration/blender_colmap_3dgs/gaussian_splatting.py:108-118 | after n records, a list has n entries for each declaration of its name, so `vertex_count` when declared once |
| `PlyGather.ColumnSingle` | experimental_blender_integration/blender_colmap_3dgs/gaussian_splatting.py:117 | a name declared once at index j collects value j of every record |
| `PlyLoader.SigmoidRange` | experimental_blender_integration/blender_colmap_3dgs/gaussian_splatting.py:135-136 | a logistic colour lies in (0, 1], and is 1 exactly when `exp` underflows to 0 |
| `PlyLoader.ColorsUpToShape` | experimental_blender_integration/blender_colmap_3dgs/gaussian_splatting.py:126-148 | the colour loop succeeds exactly when every channel is present and its `exp` does not overflow; colour k is the logistic of the three f_dc values of record k |
| `PlyLoader.ColorsUpToError` | experimental_blender_integration/blender_colmap_3dgs/gaussian_splatting.py:126-141 | the colour loop fails only by an index error on a short list or an `exp` overflow |
| `PlyLoader.ColorsShape` | experimental_blender_integration/blender_colmap_3dgs/gaussian_splatting.py:121-152 | there is one 3-channel colour in (0, 1] per position, and without all of f_dc_0..2 every colour is [0.5, 0.5, 0.5] |
| `PlyLoader.DeriveColors` | experimental_blender_integration/blender_colmap_3dgs/gaussian_splatting.py:121-152 | the colour loop computes the colour list or its error |
| `PlyLoader.BinaryRectangular` | experimental_blender_integration/blender_colmap_3dgs/gaussian_splatting.py:87-105 | in binary mode every record has all declared values, so the positions are a rectangular array |
| `PlyLoader.Lists` | experimental_blender_integration/blender_colmap_3dgs/gaussian_splatting.py:114-117 | each gathered name holds a plain list, in gathering order |
| `PlyLoader.ConvertArrays` | experimental_blender_integration/blender_colmap_3dgs/gaussian_splatting.py:159-161 | the loop over opacity, scale_0..2 and rot_0..3 converts exactly those present keys to arrays |
| `PlyLoader.ConvertedValues` | experimental_blender_integration/blender_colmap_3dgs/gaussian_splatting.py:159-161 | conversion keeps every key, its position and its values; exactly the listed keys become arrays |
| `PlyLoader.StackRoundTrip` | experimental_blender_integration/blender_colmap_3dgs/gaussian_splatting.py:165-177 | `np.column_stack` succeeds exactly on columns of equal length, and column c of the result is input c |
| `PlyLoader.GroupShape` | experimental_blender_integration/blender_colmap_3dgs/gaussian_splatting.py:164-177 | a group is added only when all its keys are present; it then holds the stacked columns, appended as a new key or in place of an old one, and nothing else changes |
| `PlyLoader.ScaledShape` | experimental_blender_integration/blender_colmap_3dgs/gaussian_splatting.py:164-169 | `scale` is built exactly when scale_0..2 all exist, from their lists as columns; unequal lengths raise |
| `PlyLoader.AttributesOutcome` | experimental_blender_integration/blender_colmap_3dgs/gaussian_splatting.py:159-177 | building the properties fails exactly when a complete scale or rotation group has unequal lengths |
| `PlyLoader.AttributesNames` | experimental_blender_integration/blender_colmap_3dgs/gaussian_splatting.py:159-177 | the returned properties are the gathered names, plus `scale` when scale_0..2 exist and `rotation` when rot_0..3 exist |
| `PlyLoader.AttributesLists` | experimental_blender_integration/blender_colmap_3dgs/gaussian_splatting.py:159-161 | a gathered name keeps its values, as an array for the listed keys and as a list otherwise |
| `PlyLoader.AttributesGroups` | experimental_blender_integration/blender_colmap_3dgs/gaussian_splatting.py:164-177 | `scale` stacks scale_0..2 and `rotation` stacks rot_0..3 whenever all of them exist |
| `PlyLoader.LoadPly` | experimental_blender_integration/blender_colmap_3dgs/gaussian_splatting.py:15-181 | the loader computes exactly the specified outcome: header scan, records, colours, arrays and groups, or the first exception, or no end |
| `PlyLoader.GatheredColors` | experimental_blender_integration/blender_colmap_3dgs/gaussian_splatting.py:126-130 | after a successful record loop, colours can fail only by an `exp` overflow, never by a short list |
| `PlyLoader.LoadShape` | experimental_blender_integration/blender_colmap_3dgs/gaussian_splatting.py:155-181 | a successful load has `vertex_count` positions and as many colours, a rectangular position array, and every colour channel in (0, 1] |
| `SplatSubsample.Take` | experimental_blender_integration/blender_colmap_3dgs/gaussian_splatting.py:244-249 | `values[indices]` succeeds exactly when every index is in range, giving the indexed rows in order |
| `SplatSubsample.SweepRaised` | experimental_blender_integration/blender_colmap_3dgs/gaussian_splatting.py:247-249 | the loop over the properties raises exactly when some value's indexing fails |
| `SplatSubsample.SweepStops` | experimental_blender_integration/blender_colmap_3dgs/gaussian_splatting.py:247-249 | once the loop raises, later entries are not changed |
| `SplatSubsample.SweepEntries` | experimental_blender_integration/blender_colmap_3dgs/gaussian_splatting.py:247-249 | without an error, the visited keys hold their resampled values and the others are unchanged |
| `SplatSubsample.SweptValue` | experimental_blender_integration/blender_colmap_3dgs/gaussian_splatting.py:248-249 | without an error, each key holds its value, indexed when it is an array of the compared length |
| `SplatSubsample.SweepSafe` | experimental_blender_integration/blender_colmap_3dgs/gaussian_splatting.py:247-249 | when every index is below the compared length, the loop cannot raise |
| `SplatSubsample.Subsample` | experimental_blender_integration/blender_colmap_3dgs/gaussian_splatting.py:241-249 | the returned positions and colours, the raised flag and the properties dict updated in place are those of the block as written: positions at the chosen indices when there are more than `max_points`, and the other values resampled only where their length equals the compared length |
| `SplatSubsample.ResampleProperties` | experimental_blender_integration/blender_colmap_3dgs/gaussian_splatting.py:246-249 | the in-place loop over the dict's items keeps its keys and order and leaves the swept entries, or stops at the first failing index |
| `SplatSubsample.AsWrittenDropsParallel` | experimental_blender_integration/blender_colmap_3dgs/gaussian_splatting.py:245-248 | as written, colours and attribute arrays parallel to the N original positions are never subsampled and end up longer than the positions |
| `SplatSubsample.AsWrittenExample` | experimental_blender_integration/blender_colmap_3dgs/gaussian_splatting.py:241-249 | 3 splats, `max_points` 2, indices [2, 0]: as written, the 3 colours stay and a 2-entry array raises IndexError; compared with N, colours follow the positions and nothing raises |
| `SplatSubsample.IntendedKeepsParallel` | experimental_blender_integration/blender_colmap_3dgs/gaussian_splatting.py:241-249 | compared with N, subsampling never raises, keeps every key, gives `max_points` positions at the chosen indices, and gives colours at the same indices when they were parallel |
| `SplatSubsample.IntendedAttribute` | experimental_blender_integration/blender_colmap_3dgs/gaussian_splatting.py:246-249 | compared with N, every parallel array stays parallel with row i taken from index i, and other values are unchanged |
| `Alignment.CentroidRemap` | experimental_blender_integration/blender_colmap_3dgs/gaussian_splatting.py:481-485 | the centroid of the remapped splats is the remapped centroid |
| `Alignment.CentroidTranslate` | experimental_blender_integration/blender_colmap_3dgs/gaussian_splatting.py:573-576 | moving every point by t moves the centroid by t |
| `Alignment.RotateIdentity` | experimental_blender_integration/blender_colmap_3dgs/gaussian_splatting.py:566-573 | `(np.eye(3) @ points.T).T` leaves the points unchanged |
| `Alignment.Bounds` | experimental_blender_integration/blender_colmap_3dgs/gaussian_splatting.py:495-496 | the per-axis maximum and minimum bound every point and are attained |
| `Alignment.ExtentsSpan` | experimental_blender_integration/blender_colmap_3dgs/gaussian_splatting.py:495-496 | `np.ptp` is non-negative and is the largest difference of two points' coordinates on that axis |
| `Alignment.RatiosShape` | experimental_blender_integration/blender_colmap_3dgs/gaussian_splatting.py:502-505 | one ratio per axis with positive splat extent, each colmap extent over splat extent |
| `Alignment.ScaleRatios` | experimental_blender_integration/blender_colmap_3dgs/gaussian_splatting.py:502-505 | the loop over the three axes builds the ratio list |
| `Alignment.MedianMiddle` | experimental_blender_integration/blender_colmap_3dgs/gaussian_splatting.py:508 | the median of three ratios is the middle one, and of two lies between them |
| `Alignment.MedianConstant` | experimental_blender_integration/blender_colmap_3dgs/gaussian_splatting.py:508 | the median of equal ratios is that ratio |
| `Alignment.ScaleFactorRange` | experimental_blender_integration/blender_colmap_3dgs/gaussian_splatting.py:507-516 | the scale is always in [0.5, 2], and exactly 1.0 when no axis has positive splat extent |
| `Alignment.ScaleRecovery` | experimental_blender_integration/blender_colmap_3dgs/gaussian_splatting.py:501-513 | when the colmap extents are k times the splat extents on every usable axis, with k in [0.5, 2], the scale is k |
| `Alignment.TranslationAligns` | experimental_blender_integration/blender_colmap_3dgs/gaussian_splatting.py:481-491 | the offset is centroid(colmap) − M·centroid(splats), and moving the remapped splats by it puts their centroid on the colmap centroid |
| `Alignment.Align` | experimental_blender_integration/blender_colmap_3dgs/gaussian_splatting.py:466-530 | None or an empty cloud returns the object unchanged. Otherwise the location is the translation offset, the scale is the clamped median ratio on all three axes, and the rotation is the axis remap |
| `Alignment.Select` | experimental_blender_integration/blender_colmap_3dgs/gaussian_splatting.py:555 | `points[indices]` gives the indexed points in order |
| `Alignment.Subset` | experimental_blender_integration/blender_colmap_3dgs/gaussian_splatting.py:552-563 | the subset of a non-empty cloud is non-empty |
| `Alignment.IcpStep` | experimental_blender_integration/blender_colmap_3dgs/gaussian_splatting.py:573-580 | one pass sets t to d − t, so t alternates between d = centroid(target) − centroid(source) and 0 |
| `Alignment.IcpBreak` | experimental_blender_integration/blender_colmap_3dgs/gaussian_splatting.py:582-586 | the early exit can only happen on the second pass, returning t = 0 |
| `Alignment.IcpRunsOut` | experimental_blender_integration/blender_colmap_3dgs/gaussian_splatting.py:571-590 | after all passes, t is d after an odd count and 0 after an even one |
| `Alignment.IcpStopsEarly` | experimental_blender_integration/blender_colmap_3dgs/gaussian_splatting.py:569-590 | for a true norm, d ≠ 0 and at least two passes, the result is d exactly when the pass count is odd and ‖d‖ ≥ tolerance |
| `Alignment.IcpAlternates` | experimental_blender_integration/blender_colmap_3dgs/gaussian_splatting.py:571-590 | the result is d or 0: d after one pass, 0 after an even count |
| `Alignment.SimpleIcp` | experimental_blender_integration/blender_colmap_3dgs/gaussian_splatting.py:540-590 | the rotation is the identity, and t is the loop's closed form over the subsets' centroid difference |
| `Alignment.IcpDefaultZero` | experimental_blender_integration/blender_colmap_3dgs/gaussian_splatting.py:542-590 | with the default `max_iterations=10` the loop returns a zero translation for every pair of clouds, and so never the centroid difference when that is non-zero |
| `Alignment.SimpleIcpAccumulated` | experimental_blender_integration/blender_colmap_3dgs/gaussian_splatting.py:539-590 | with `t` accumulated, the rotation is the identity, `t` is the centroid difference after any number of passes from one on, and it moves the source subset's centroid onto the target subset's |

## Left out

- Blender scene effects are left out: object creation and linking, and `to_euler`. `Alignment.Align` stores the rotation as the remap matrix rather than Euler angles. Printing is left out too.
- IEEE floating point is not modelled:
  - COLMAP doubles stay 8-byte patterns (`Bytes.Float64`), interpreted by a caller-supplied `asReal`;
  - PLY floats go through `Numerics.f32`/`f64`, and `float()` through `Numerics.parseFloat`;
  - arithmetic is over exact reals, so NaN, infinities and rounding do not occur.
- `np.linalg.norm` is a parameter:
  - in quaternion normalisation it is a `sqrt` with `IsSqrt`;
  - in the ICP loop it is a `norm` with `IsNorm`, which only asks for non-negativity and zero exactly at the zero vector.
- `math.exp` is a parameter that returns `None` on overflow.
- `float()` of an integer is a parameter, `Numerics.fromInt`. It returns the nearest double, or `None` where Python raises `OverflowError`.
- `np.random.choice` is a caller-supplied sequence of distinct in-range indices (`Alignment.IsChoice`).
- `SplatSubsample`: `max_points` is a `nat`. A negative `max_points` makes `np.random.choice` raise `ValueError`, and this is not modelled; the default is 200000.
- The file system is left out. `Path.exists` is a predicate over paths, and `open`/`read` is a function from a path to its bytes.
- The UTF-8 decode of image names accepts only ASCII bytes. This is what decoding a single byte at a time allows, because any byte of 128 or more raises.
- `Alignment.SimpleIcp` and `Alignment.SimpleIcpAccumulated` require both clouds to be non-empty, because `np.mean` of an empty array is NaN. The first comparison against `prev_error = inf` is modelled as "no previous error".
- A zero quaternion, which numpy turns into NaN, gives the `Undefined` pose in `ColmapLoader.PoseOf`.
- `int()` is modelled for ASCII digits, underscores, a sign and surrounding whitespace. Other Unicode digits are not modelled.
- `np.array` of ragged ASCII positions raises `ValueError`, as NumPy 1.24 and later do. Older NumPy's object arrays are not modelled.
- numpy dtypes are left out. Values are reals, and the `List`/`Array`/`Matrix` attribute kinds stand in for Python lists, 1-D and 2-D arrays.
- The rest of `create_gaussian_splat_points`, `main()` and the C++ engine are not part of this model.

## Findings

| source | as written | input that shows it | evidently intended | confidence | as-written member | corrected member |
|---|---|---|---|---|---|---|
| experimental_blender_integration/blender_colmap_3dgs/gaussian_splatting.py:245-248 | colours and property arrays are resampled only when their length equals `len(indices)`, i.e. `max_points` | 3 splats with 3 colours, `max_points` 2, indices [2, 0]: the colours stay 3 rows long, no longer matching the 2 positions. An unrelated 2-entry array is indexed with 2 and raises IndexError | compare with the original splat count, so that colours and every parallel array follow the positions | not executed | `SplatSubsample.AsWrittenExample` | `SplatSubsample.IntendedKeepsParallel` |
| experimental_blender_integration/blender_colmap_3dgs/gaussian_splatting.py:578 | each pass sets `t = target_centroid - source_centroid` of the already translated source, so `t` alternates between the centroid difference d and zero | any two clouds with different centroids and the default `max_iterations=10`: the tenth pass, or the break on the second, leaves `t` zero | accumulate, `t = t + (target_centroid - source_centroid)`, so `t` is d from the first pass on | not executed | `Alignment.IcpDefaultZero` | `Alignment.SimpleIcpAccumulated` |

/**
 * The three files of a sparse reconstruction (`cameras.bin`, `images.bin`,
 * `points3D.bin`): the records `read_cameras_binary`, `read_images_binary`
 * and `read_points3d_binary` decode, their byte layout, and writers that the
 * decoders invert. Every field is little-endian; doubles are kept as their
 * bit patterns.
 */
module ColmapFormat {
  import opened Wrappers
  import opened Bytes
  import opened OrderedMaps
  import opened RecordStreams

  /** The camera models of the reader's table, and "UNKNOWN" for any other code. */
  datatype CameraModel =
    | SimplePinhole | Pinhole | SimpleRadial | Radial | OpenCV | OpenCVFisheye | FullOpenCV
    | Fov | SimpleRadialFisheye | RadialFisheye | ThinPrismFisheye | UnknownModel

  datatype Camera = Camera(id: int, model: CameraModel, width: nat, height: nat, params: seq<Float64>)

  /** A registered image: its world-to-camera pose (qvec = (w, x, y, z), tvec), camera, file name and observed point ids. */
  datatype Image = Image(id: int, qvec: seq<Float64>, tvec: seq<Float64>, cameraId: int, name: string, point3dIds: seq<int>)

  /** A reconstructed point: position, colour, error and its track as two parallel arrays. */
  datatype Point3D = Point3D(id: nat, xyz: seq<Float64>, rgb: seq<Byte>, error: Float64,
                             imageIds: seq<int>, point2dIdxs: seq<int>)

  // ---------------------------------------------------------------- cameras

  /** The model for a model code: the table's eleven codes, "UNKNOWN" for any other. */
  function ModelOf(modelId: int): (m: CameraModel)
    ensures m == UnknownModel <==> !(0 <= modelId <= 10)
  {
    match modelId
    case 0 => SimplePinhole
    case 1 => Pinhole
    case 2 => SimpleRadial
    case 3 => Radial
    case 4 => OpenCV
    case 5 => OpenCVFisheye
    case 6 => FullOpenCV
    case 7 => Fov
    case 8 => SimpleRadialFisheye
    case 9 => RadialFisheye
    case 10 => ThinPrismFisheye
    case _ => UnknownModel
  }

  /** The model name string the reader stores. */
  function ModelName(m: CameraModel): string
  {
    match m
    case SimplePinhole => "SIMPLE_PINHOLE"
    case Pinhole => "PINHOLE"
    case SimpleRadial => "SIMPLE_RADIAL"
    case Radial => "RADIAL"
    case OpenCV => "OPENCV"
    case OpenCVFisheye => "OPENCV_FISHEYE"
    case FullOpenCV => "FULL_OPENCV"
    case Fov => "FOV"
    case SimpleRadialFisheye => "SIMPLE_RADIAL_FISHEYE"
    case RadialFisheye => "RADIAL_FISHEYE"
    case ThinPrismFisheye => "THIN_PRISM_FISHEYE"
    case UnknownModel => "UNKNOWN"
  }

  /** How many doubles follow a camera's fixed block; none for an unknown code. */
  function NumParams(m: CameraModel): (k: nat)
    ensures k == 0 <==> m == UnknownModel
    ensures k <= 12
  {
    match m
    case SimplePinhole => 3
    case Pinhole => 4
    case SimpleRadial => 4
    case Radial => 5
    case OpenCV => 8
    case OpenCVFisheye => 8
    case FullOpenCV => 12
    case Fov => 5
    case SimpleRadialFisheye => 4
    case RadialFisheye => 5
    case ThinPrismFisheye => 12
    case UnknownModel => 0
  }

  /** The model code a writer stores; -1 for "UNKNOWN". */
  function ModelCode(m: CameraModel): (code: int)
    ensures -1 <= code <= 10
  {
    match m
    case SimplePinhole => 0
    case Pinhole => 1
    case SimpleRadial => 2
    case Radial => 3
    case OpenCV => 4
    case OpenCVFisheye => 5
    case FullOpenCV => 6
    case Fov => 7
    case SimpleRadialFisheye => 8
    case RadialFisheye => 9
    case ThinPrismFisheye => 10
    case UnknownModel => -1
  }

  /** Every model is read back from the code its writer stores. */
  lemma ModelCodeRoundTrip(m: CameraModel)
    ensures ModelOf(ModelCode(m)) == m
  {
  }

  /** The table's parameter counts, by code: unknown codes carry no parameters. */
  lemma NumParamsTable(modelId: int)
    ensures NumParams(ModelOf(modelId)) ==
      match modelId
      case 0 => 3 case 1 => 4 case 2 => 4 case 3 => 5 case 4 => 8 case 5 => 8
      case 6 => 12 case 7 => 5 case 8 => 4 case 9 => 5 case 10 => 12 case _ => 0
  {
  }

  /** Different models have different names, so the stored name identifies the model. */
  lemma ModelNamesDistinct(m1: CameraModel, m2: CameraModel)
    ensures ModelName(m1) == ModelName(m2) <==> m1 == m2
  {
    var n1, n2 := ModelName(m1), ModelName(m2);
    assert |n1| > 0 && |n2| > 0;
    if n1 == n2 {
      assert |n1| == |n2| && n1[0] == n2[0];
    }
  }

  /**
   * One camera at `pos`: the 24-byte block (i32 id, i32 model code, u64
   * width, u64 height), then as many doubles as the model code's table entry.
   */
  function CameraAt(data: seq<Byte>, pos: nat): (r: Result<(Camera, nat), DecodeError>)
    ensures r.Ok? <==> pos + 24 <= |data| && pos + 24 + 8 * NumParams(ModelOf(I32At(data, pos + 4))) <= |data|
    ensures r.Err? ==> r.error == Truncated
    ensures r.Ok? ==> var (c, next) := r.value;
      && c.model == ModelOf(I32At(data, pos + 4))
      && |c.params| == NumParams(c.model)
      && next == pos + 24 + 8 * |c.params|
  {
    if |data| < pos + 24 then Err(Truncated)
    else
      var model := ModelOf(I32At(data, pos + 4));
      var k := NumParams(model);
      if |data| < pos + 24 + 8 * k then Err(Truncated)
      else
        var c := Camera(I32At(data, pos), model, U64At(data, pos + 8), U64At(data, pos + 16), F64sAt(data, pos + 24, k));
        Ok((c, pos + 24 + 8 * k))
  }

  function CameraId(c: Camera): int { c.id }

  /** A camera a writer can store: fields in range and as many parameters as its model takes. */
  predicate CameraWellFormed(c: Camera)
  {
    && IsI32(c.id) && IsU64(c.width) && IsU64(c.height)
    && |c.params| == NumParams(c.model)
    && forall i :: 0 <= i < |c.params| ==> IsF64(c.params[i])
  }

  /** The 24-byte block: i32 id, i32 model code, u64 width, u64 height. */
  function CameraBlock(c: Camera): (s: seq<Byte>)
    ensures |s| == 24
  {
    EncodeI32(c.id) + EncodeI32(ModelCode(c.model)) + EncodeU64(c.width) + EncodeU64(c.height)
  }

  function EncodeCamera(c: Camera): (s: seq<Byte>)
    ensures |s| == 24 + 8 * |c.params|
  {
    ConcatLength(c.params, EncodeF64, 8);
    CameraBlock(c) + Concat(c.params, EncodeF64)
  }

  lemma CameraBlockRoundTrip(data: seq<Byte>, pos: nat, b: nat, c: Camera)
    requires IsI32(c.id) && IsU64(c.width) && IsU64(c.height)
    requires b == pos + 24 <= |data| && data[pos..b] == CameraBlock(c)
    ensures I32At(data, pos) == c.id && ModelOf(I32At(data, pos + 4)) == c.model
    ensures U64At(data, pos + 8) == c.width && U64At(data, pos + 16) == c.height
  {
    var id, code, w, h := EncodeI32(c.id), EncodeI32(ModelCode(c.model)), EncodeU64(c.width), EncodeU64(c.height);
    SplitAt(data, pos, pos + 16, b, id + code + w, h);
    SplitAt(data, pos, pos + 8, pos + 16, id + code, w);
    SplitAt(data, pos, pos + 4, pos + 8, id, code);
    I32RoundTrip(data, pos, pos + 4, c.id);
    I32RoundTrip(data, pos + 4, pos + 8, ModelCode(c.model));
    ModelCodeRoundTrip(c.model);
    U64RoundTrip(data, pos + 8, pos + 16, c.width);
    U64RoundTrip(data, pos + 16, b, c.height);
  }

  /** `k` doubles written one after the other at `a..b` are read back by `F64sAt`. */
  lemma {:induction false} FloatsRoundTrip(fs: seq<Float64>, data: seq<Byte>, a: nat, b: nat)
    requires forall i :: 0 <= i < |fs| ==> IsF64(fs[i])
    requires b == a + 8 * |fs| <= |data| && data[a..b] == Concat(fs, EncodeF64)
    ensures F64sAt(data, a, |fs|) == fs
    decreases |fs|
  {
    if |fs| > 0 {
      var head, tail := EncodeF64(fs[0]), Concat(fs[1..], EncodeF64);
      ConcatLength(fs[1..], EncodeF64, 8);
      assert Concat(fs, EncodeF64) == head + tail;
      SplitAt(data, a, a + 8, b, head, tail);
      F64RoundTrip(data, a, a + 8, fs[0]);
      FloatsRoundTrip(fs[1..], data, a + 8, b);
      assert [fs[0]] + fs[1..] == fs;
    }
  }

  lemma CameraRoundTripAt(data: seq<Byte>, pos: nat, c: Camera)
    requires CameraWellFormed(c)
    requires pos + |EncodeCamera(c)| <= |data| && data[pos..pos + |EncodeCamera(c)|] == EncodeCamera(c)
    ensures CameraAt(data, pos) == Ok((c, pos + |EncodeCamera(c)|))
  {
    var b := pos + 24 + 8 * |c.params|;
    ConcatLength(c.params, EncodeF64, 8);
    assert b == pos + |EncodeCamera(c)|;
    SplitAt(data, pos, pos + 24, b, CameraBlock(c), Concat(c.params, EncodeF64));
    CameraBlockRoundTrip(data, pos, pos + 24, c);
    FloatsRoundTrip(c.params, data, pos + 24, b);
  }

  lemma CameraReadsBack(data: seq<Byte>, pos: nat, c: Camera)
    ensures ReadsBack(CameraAt, EncodeCamera, CameraWellFormed, data, pos, c)
  {
    if CameraWellFormed(c) && pos + |EncodeCamera(c)| <= |data| && data[pos..pos + |EncodeCamera(c)|] == EncodeCamera(c) {
      CameraRoundTripAt(data, pos, c);
    }
  }

  /** `CameraAt` reads back what `EncodeCamera` wrote. */
  lemma CameraRoundTrip()
    ensures Inverts(CameraAt, EncodeCamera, CameraWellFormed)
  {
    forall data: seq<Byte>, pos: nat, c: Camera
      ensures ReadsBack(CameraAt, EncodeCamera, CameraWellFormed, data, pos, c)
    {
      CameraReadsBack(data, pos, c);
    }
  }

  /** Doubles inside the kept prefix read the same. */
  lemma {:induction false} FloatsPrefix(data: seq<Byte>, pos: nat, n: nat, k: nat)
    requires pos + 8 * n <= k <= |data|
    ensures F64sAt(data[..k], pos, n) == F64sAt(data, pos, n)
    decreases n
  {
    if n > 0 {
      PrefixSlice(data, k, pos, pos + 8);
      FloatsPrefix(data, pos + 8, n - 1, k);
    }
  }

  lemma CameraPrefixAt(data: seq<Byte>, pos: nat, k: nat)
    requires CameraAt(data, pos).Ok? && k <= |data|
    ensures pos <= CameraAt(data, pos).value.1 <= |data|
    ensures if k < CameraAt(data, pos).value.1 then CameraAt(data[..k], pos).Err?
            else CameraAt(data[..k], pos) == CameraAt(data, pos)
  {
    if pos + 24 <= k {
      PrefixSlice(data, k, pos, pos + 4);
      PrefixSlice(data, k, pos + 4, pos + 8);
      PrefixSlice(data, k, pos + 8, pos + 16);
      PrefixSlice(data, k, pos + 16, pos + 24);
      var n := NumParams(ModelOf(I32At(data, pos + 4)));
      if pos + 24 + 8 * n <= k {
        FloatsPrefix(data, pos + 24, n, k);
      }
    }
  }

  /** A camera read looks at no byte past the record. */
  lemma CameraPrefixClosed()
    ensures PrefixClosed(CameraAt)
  {
    forall data: seq<Byte>, pos: nat | CameraAt(data, pos).Ok?
      ensures pos <= CameraAt(data, pos).value.1 <= |data|
    {
      CameraPrefixAt(data, pos, |data|);
    }
    forall data: seq<Byte>, pos: nat, k: nat | CameraAt(data, pos).Ok? && k <= |data|
      ensures if k < CameraAt(data, pos).value.1 then CameraAt(data[..k], pos).Err?
              else CameraAt(data[..k], pos) == CameraAt(data, pos)
    {
      CameraPrefixAt(data, pos, k);
    }
  }

  /** `read_cameras_binary` on the bytes of the file. */
  function ReadCameras(data: seq<Byte>): Result<OMap<int, Camera>, DecodeError>
  {
    ReadFile(data, CameraAt, CameraId)
  }

  // ----------------------------------------------------------------- images

  /**
   * The image name at `pos`: bytes up to, and not including, the first 0
   * byte, each decoded on its own as UTF-8 (so only ASCII bytes decode),
   * with the position after the 0 byte.
   */
  function NameAt(data: seq<Byte>, pos: nat): (r: Result<(string, nat), DecodeError>)
    ensures r.Ok? ==> pos + |r.value.0| + 1 == r.value.1 <= |data|
    decreases |data| - pos
  {
    if |data| <= pos then Err(Truncated)
    else if data[pos] == 0 then Ok(("", pos + 1))
    else if data[pos] >= 128 then Err(NonAsciiName)
    else
      match NameAt(data, pos + 1)
      case Err(e) => Err(e)
      case Ok((rest, next)) => Ok(([data[pos] as char] + rest, next))
  }

  /** The characters of a byte string, one per byte. */
  function Chars(bs: seq<Byte>): (cs: string)
    ensures |cs| == |bs| && forall i :: 0 <= i < |bs| ==> cs[i] as int == bs[i]
  {
    seq(|bs|, i requires 0 <= i < |bs| => bs[i] as char)
  }

  /** A decoded name is the ASCII bytes before the first 0 byte. */
  lemma {:induction false} NameAtBytes(data: seq<Byte>, pos: nat)
    requires NameAt(data, pos).Ok?
    ensures var next := NameAt(data, pos).value.1;
      && data[next - 1] == 0
      && NameAt(data, pos).value.0 == Chars(data[pos..next - 1])
      && forall i :: pos <= i < next - 1 ==> 0 < data[i] < 128
    decreases |data| - pos
  {
    var (name, next) := NameAt(data, pos).value;
    if data[pos] != 0 {
      NameAtBytes(data, pos + 1);
      var rest := NameAt(data, pos + 1).value.0;
      assert name == [data[pos] as char] + rest;
      assert data[pos..next - 1] == [data[pos]] + data[pos + 1..next - 1];
    }
  }

  /** With no 0 byte left the name read runs off the end of the file. */
  lemma {:induction false} NameUnterminated(data: seq<Byte>, pos: nat)
    requires forall i :: pos <= i < |data| ==> data[i] != 0
    ensures NameAt(data, pos).Err?
    decreases |data| - pos
  {
    if pos < |data| && data[pos] < 128 {
      NameUnterminated(data, pos + 1);
    }
  }

  /** A byte of 128 or more before the terminator makes the decode raise. */
  lemma {:induction false} NameNonAscii(data: seq<Byte>, pos: nat, e: nat)
    requires pos <= e < |data| && data[e] >= 128
    requires forall i :: pos <= i < e ==> data[i] != 0
    ensures NameAt(data, pos) == Err(NonAsciiName)
    decreases e - pos
  {
    if pos < e && data[pos] < 128 {
      NameNonAscii(data, pos + 1, e);
    }
  }

  predicate NameWellFormed(name: string)
  {
    forall i :: 0 <= i < |name| ==> 0 < name[i] as int < 128
  }

  /** The name bytes and the terminating 0. */
  function EncodeName(name: string): (s: seq<Byte>)
    ensures |s| == |name| + 1
  {
    seq(|name|, i requires 0 <= i < |name| => (name[i] as int) % 256) + [0]
  }

  lemma {:induction false} NameRoundTrip(data: seq<Byte>, a: nat, b: nat, name: string)
    requires NameWellFormed(name)
    requires b == a + |name| + 1 <= |data| && data[a..b] == EncodeName(name)
    ensures NameAt(data, a) == Ok((name, b))
    decreases |name|
  {
    var enc := EncodeName(name);
    assert data[a] == enc[0];
    if |name| > 0 {
      var rest := name[1..];
      assert NameWellFormed(rest);
      assert data[a + 1..b] == EncodeName(rest) by {
        assert data[a + 1..b] == enc[1..];
      }
      NameRoundTrip(data, a + 1, b, rest);
      assert [data[a] as char] + rest == name;
    }
  }

  lemma {:induction false} NamePrefix(data: seq<Byte>, pos: nat, k: nat)
    requires NameAt(data, pos).Ok? && k <= |data|
    ensures if k < NameAt(data, pos).value.1 then NameAt(data[..k], pos).Err?
            else NameAt(data[..k], pos) == NameAt(data, pos)
    decreases |data| - pos
  {
    if k > pos && data[pos] != 0 {
      NamePrefix(data, pos + 1, k);
    }
  }

  /** The point id of each of `m` (x, y, point id) triples from `q`: `x_y_id_s[2::3]`. */
  function PointIdsAt(data: seq<Byte>, q: nat, m: nat): (ids: seq<int>)
    requires q + 24 * m <= |data|
    ensures |ids| == m
    decreases m
  {
    if m == 0 then [] else [I64At(data, q + 16)] + PointIdsAt(data, q + 24, m - 1)
  }

  /** The `j`-th id is the third field of the `j`-th triple. */
  lemma {:induction false} PointIdsAtIndex(data: seq<Byte>, q: nat, m: nat, j: nat)
    requires q + 24 * m <= |data| && j < m
    ensures PointIdsAt(data, q, m)[j] == I64At(data, q + 24 * j + 16)
    decreases j
  {
    if j > 0 {
      PointIdsAtIndex(data, q + 24, m - 1, j - 1);
    }
  }

  /**
   * One image at `pos`: the 64-byte block, the NUL-terminated name, a u64
   * count `m` and `m` triples of 24 bytes whose third field is a point id.
   */
  function ImageAt(data: seq<Byte>, pos: nat): (r: Result<(Image, nat), DecodeError>)
    ensures r.Ok? ==> pos + 65 + 8 <= r.value.1 <= |data|
  {
    if |data| < pos + 64 then Err(Truncated)
    else
      match NameAt(data, pos + 64)
      case Err(e) => Err(e)
      case Ok((name, p)) =>
        match PointIdsFrom(data, p)
        case Err(e) => Err(e)
        case Ok((ids, next)) =>
          Ok((Image(I32At(data, pos), F64sAt(data, pos + 4, 4), F64sAt(data, pos + 36, 3), I32At(data, pos + 60), name, ids),
              next))
  }

  /** The u64 count at `p` and the point ids of that many triples after it. */
  function PointIdsFrom(data: seq<Byte>, p: nat): (r: Result<(seq<int>, nat), DecodeError>)
    ensures r.Ok? ==> p + 8 + 24 * |r.value.0| == r.value.1 <= |data|
    ensures r.Err? ==> r.error == Truncated
  {
    if |data| < p + 8 then Err(Truncated)
    else
      var m := U64At(data, p);
      if |data| < p + 8 + 24 * m then Err(Truncated)
      else Ok((PointIdsAt(data, p + 8, m), p + 8 + 24 * m))
  }

  /** Every id read is the third field of its triple: `x_y_id_s[2::3]`. */
  lemma PointIdsAtFields(data: seq<Byte>, q: nat, m: nat)
    requires q + 24 * m <= |data|
    ensures forall j :: 0 <= j < m ==> PointIdsAt(data, q, m)[j] == I64At(data, q + 24 * j + 16)
  {
    forall j | 0 <= j < m
      ensures PointIdsAt(data, q, m)[j] == I64At(data, q + 24 * j + 16)
    {
      PointIdsAtIndex(data, q, m, j);
    }
  }

  /** A name that fails to decode makes the whole image read raise with the same error. */
  lemma ImageNameError(data: seq<Byte>, pos: nat)
    requires pos + 64 <= |data| && NameAt(data, pos + 64).Err?
    ensures ImageAt(data, pos) == Err(NameAt(data, pos + 64).error)
  {
  }

  function ImageId(im: Image): int { im.id }

  /** An image a writer can store: fields in range, an ASCII name without 0 bytes. */
  predicate ImageWellFormed(im: Image)
  {
    && IsI32(im.id) && IsI32(im.cameraId)
    && |im.qvec| == 4 && |im.tvec| == 3
    && (forall i :: 0 <= i < 4 ==> IsF64(im.qvec[i]))
    && (forall i :: 0 <= i < 3 ==> IsF64(im.tvec[i]))
    && NameWellFormed(im.name)
    && IdsWellFormed(im.point3dIds)
  }

  predicate IdsWellFormed(ids: seq<int>)
  {
    IsU64(|ids|) && forall j :: 0 <= j < |ids| ==> IsI64(ids[j])
  }

  /** The 64-byte block: i32 id, four doubles of qvec, three of tvec, i32 camera id. */
  function ImageBlock(im: Image): (s: seq<Byte>)
    ensures |s| == 8 + 8 * |im.qvec| + 8 * |im.tvec|
  {
    ConcatLength(im.qvec, EncodeF64, 8);
    ConcatLength(im.tvec, EncodeF64, 8);
    EncodeI32(im.id) + Concat(im.qvec, EncodeF64) + Concat(im.tvec, EncodeF64) + EncodeI32(im.cameraId)
  }

  /** A point id inside its (x, y, id) triple; the reader drops x and y, the writer stores zeros. */
  function EncodeTriple(id: int): (s: seq<Byte>)
    ensures |s| == 24
  {
    Zeros(16) + EncodeI64(id)
  }

  function Zeros(n: nat): (s: seq<Byte>)
    ensures |s| == n
  {
    seq(n, _ => 0)
  }

  /** The count of point ids and their triples. */
  function EncodePointIds(ids: seq<int>): (s: seq<Byte>)
    ensures |s| == 8 + 24 * |ids|
  {
    ConcatLength(ids, EncodeTriple, 24);
    EncodeU64(|ids|) + Concat(ids, EncodeTriple)
  }

  function EncodeImage(im: Image): (s: seq<Byte>)
    ensures |s| == |ImageBlock(im)| + |im.name| + 9 + 24 * |im.point3dIds|
  {
    ImageBlock(im) + (EncodeName(im.name) + EncodePointIds(im.point3dIds))
  }

  lemma ImageBlockRoundTrip(data: seq<Byte>, pos: nat, b: nat, im: Image)
    requires ImageWellFormed(im)
    requires b == pos + 64 <= |data| && data[pos..b] == ImageBlock(im)
    ensures I32At(data, pos) == im.id && I32At(data, pos + 60) == im.cameraId
    ensures F64sAt(data, pos + 4, 4) == im.qvec && F64sAt(data, pos + 36, 3) == im.tvec
  {
    var id, q, t, cam := EncodeI32(im.id), Concat(im.qvec, EncodeF64), Concat(im.tvec, EncodeF64), EncodeI32(im.cameraId);
    ConcatLength(im.qvec, EncodeF64, 8);
    ConcatLength(im.tvec, EncodeF64, 8);
    SplitAt(data, pos, pos + 60, b, id + q + t, cam);
    SplitAt(data, pos, pos + 36, pos + 60, id + q, t);
    SplitAt(data, pos, pos + 4, pos + 36, id, q);
    I32RoundTrip(data, pos, pos + 4, im.id);
    I32RoundTrip(data, pos + 60, b, im.cameraId);
    FloatsRoundTrip(im.qvec, data, pos + 4, pos + 36);
    FloatsRoundTrip(im.tvec, data, pos + 36, pos + 60);
  }

  lemma {:induction false} TriplesRoundTrip(data: seq<Byte>, a: nat, b: nat, ids: seq<int>)
    requires forall j :: 0 <= j < |ids| ==> IsI64(ids[j])
    requires b == a + 24 * |ids| <= |data| && data[a..b] == Concat(ids, EncodeTriple)
    ensures PointIdsAt(data, a, |ids|) == ids
    decreases |ids|
  {
    if |ids| > 0 {
      var head, tail := EncodeTriple(ids[0]), Concat(ids[1..], EncodeTriple);
      ConcatLength(ids[1..], EncodeTriple, 24);
      assert Concat(ids, EncodeTriple) == head + tail;
      SplitAt(data, a, a + 24, b, head, tail);
      TripleAt(data, a, a + 24, ids[0]);
      TriplesRoundTrip(data, a + 24, b, ids[1..]);
      assert [ids[0]] + ids[1..] == ids;
    }
  }

  /** The point id of one triple is read from its third field. */
  lemma TripleAt(data: seq<Byte>, a: nat, b: nat, id: int)
    requires IsI64(id) && b == a + 24 <= |data| && data[a..b] == EncodeTriple(id)
    ensures I64At(data, a + 16) == id
  {
    SplitAt(data, a, a + 16, b, Zeros(16), EncodeI64(id));
    I64RoundTrip(data, a + 16, b, id);
  }

  lemma PointIdsRoundTrip(data: seq<Byte>, a: nat, b: nat, ids: seq<int>)
    requires IdsWellFormed(ids)
    requires b == a + 8 + 24 * |ids| <= |data| && data[a..b] == EncodePointIds(ids)
    ensures PointIdsFrom(data, a) == Ok((ids, b))
  {
    ConcatLength(ids, EncodeTriple, 24);
    SplitAt(data, a, a + 8, b, EncodeU64(|ids|), Concat(ids, EncodeTriple));
    U64RoundTrip(data, a, a + 8, |ids|);
    TriplesRoundTrip(data, a + 8, b, ids);
  }

  /** The name and the point ids after the block read back what was written. */
  lemma NameIdsRoundTrip(data: seq<Byte>, a: nat, p: nat, b: nat, im: Image)
    requires NameWellFormed(im.name) && IdsWellFormed(im.point3dIds)
    requires p == a + |im.name| + 1 && b == p + 8 + 24 * |im.point3dIds| <= |data|
    requires data[a..b] == EncodeName(im.name) + EncodePointIds(im.point3dIds)
    ensures NameAt(data, a) == Ok((im.name, p)) && PointIdsFrom(data, p) == Ok((im.point3dIds, b))
  {
    SplitAt(data, a, p, b, EncodeName(im.name), EncodePointIds(im.point3dIds));
    NameRoundTrip(data, a, p, im.name);
    PointIdsRoundTrip(data, p, b, im.point3dIds);
  }

  lemma ImageRoundTripAt(data: seq<Byte>, pos: nat, im: Image)
    requires ImageWellFormed(im)
    requires pos + |EncodeImage(im)| <= |data| && data[pos..pos + |EncodeImage(im)|] == EncodeImage(im)
    ensures ImageAt(data, pos) == Ok((im, pos + |EncodeImage(im)|))
  {
    var block, rest := ImageBlock(im), EncodeName(im.name) + EncodePointIds(im.point3dIds);
    var p := pos + 64 + |im.name| + 1;
    var b := p + 8 + 24 * |im.point3dIds|;
    assert b == pos + |EncodeImage(im)|;
    SplitAt(data, pos, pos + 64, b, block, rest);
    ImageBlockRoundTrip(data, pos, pos + 64, im);
    NameIdsRoundTrip(data, pos + 64, p, b, im);
  }

  lemma ImageReadsBack(data: seq<Byte>, pos: nat, im: Image)
    ensures ReadsBack(ImageAt, EncodeImage, ImageWellFormed, data, pos, im)
  {
    if ImageWellFormed(im) && pos + |EncodeImage(im)| <= |data| && data[pos..pos + |EncodeImage(im)|] == EncodeImage(im) {
      ImageRoundTripAt(data, pos, im);
    }
  }

  /** `ImageAt` reads back what `EncodeImage` wrote. */
  lemma ImageRoundTrip()
    ensures Inverts(ImageAt, EncodeImage, ImageWellFormed)
  {
    forall data: seq<Byte>, pos: nat, im: Image
      ensures ReadsBack(ImageAt, EncodeImage, ImageWellFormed, data, pos, im)
    {
      ImageReadsBack(data, pos, im);
    }
  }

  lemma {:induction false} IdsPrefix(data: seq<Byte>, q: nat, m: nat, k: nat)
    requires q + 24 * m <= k <= |data|
    ensures PointIdsAt(data[..k], q, m) == PointIdsAt(data, q, m)
    decreases m
  {
    if m > 0 {
      PrefixSlice(data, k, q + 16, q + 24);
      IdsPrefix(data, q + 24, m - 1, k);
    }
  }

  lemma PointIdsPrefix(data: seq<Byte>, p: nat, k: nat)
    requires PointIdsFrom(data, p).Ok? && p <= k <= |data|
    ensures if k < PointIdsFrom(data, p).value.1 then PointIdsFrom(data[..k], p).Err?
            else PointIdsFrom(data[..k], p) == PointIdsFrom(data, p)
  {
    if p + 8 <= k {
      PrefixSlice(data, k, p, p + 8);
      var m := U64At(data, p);
      if p + 8 + 24 * m <= k {
        IdsPrefix(data, p + 8, m, k);
      }
    }
  }

  lemma BlockPrefix(data: seq<Byte>, pos: nat, k: nat)
    requires pos + 64 <= k <= |data|
    ensures I32At(data[..k], pos) == I32At(data, pos) && I32At(data[..k], pos + 60) == I32At(data, pos + 60)
    ensures F64sAt(data[..k], pos + 4, 4) == F64sAt(data, pos + 4, 4)
    ensures F64sAt(data[..k], pos + 36, 3) == F64sAt(data, pos + 36, 3)
  {
    PrefixSlice(data, k, pos, pos + 4);
    PrefixSlice(data, k, pos + 60, pos + 64);
    FloatsPrefix(data, pos + 4, 4, k);
    FloatsPrefix(data, pos + 36, 3, k);
  }

  lemma ImagePrefixAt(data: seq<Byte>, pos: nat, k: nat)
    requires ImageAt(data, pos).Ok? && k <= |data|
    ensures pos <= ImageAt(data, pos).value.1 <= |data|
    ensures if k < ImageAt(data, pos).value.1 then ImageAt(data[..k], pos).Err?
            else ImageAt(data[..k], pos) == ImageAt(data, pos)
  {
    if pos + 64 <= k {
      NamePrefix(data, pos + 64, k);
      var p := NameAt(data, pos + 64).value.1;
      if p <= k {
        BlockPrefix(data, pos, k);
        PointIdsPrefix(data, p, k);
      }
    }
  }

  /** An image read looks at no byte past the record. */
  lemma ImagePrefixClosed()
    ensures PrefixClosed(ImageAt)
  {
    forall data: seq<Byte>, pos: nat | ImageAt(data, pos).Ok?
      ensures pos <= ImageAt(data, pos).value.1 <= |data|
    {
      ImagePrefixAt(data, pos, |data|);
    }
    forall data: seq<Byte>, pos: nat, k: nat | ImageAt(data, pos).Ok? && k <= |data|
      ensures if k < ImageAt(data, pos).value.1 then ImageAt(data[..k], pos).Err?
              else ImageAt(data[..k], pos) == ImageAt(data, pos)
    {
      ImagePrefixAt(data, pos, k);
    }
  }

  /** `read_images_binary` on the bytes of the file. */
  function ReadImages(data: seq<Byte>): Result<OMap<int, Image>, DecodeError>
  {
    ReadFile(data, ImageAt, ImageId)
  }

  // ----------------------------------------------------------------- points

  /** The image id of each of `m` (image id, point2D index) pairs from `q`: `track_elems[0::2]`. */
  function TrackImageIdsAt(data: seq<Byte>, q: nat, m: nat): (ids: seq<int>)
    requires q + 8 * m <= |data|
    ensures |ids| == m
    decreases m
  {
    if m == 0 then [] else [I32At(data, q)] + TrackImageIdsAt(data, q + 8, m - 1)
  }

  /** The point2D index of each of `m` pairs from `q`: `track_elems[1::2]`. */
  function TrackPoint2dIdxsAt(data: seq<Byte>, q: nat, m: nat): (idxs: seq<int>)
    requires q + 8 * m <= |data|
    ensures |idxs| == m
    decreases m
  {
    if m == 0 then [] else [I32At(data, q + 4)] + TrackPoint2dIdxsAt(data, q + 8, m - 1)
  }

  /** The `j`-th entries are the even and the odd i32 slot of the `j`-th pair. */
  lemma TrackAtIndex(data: seq<Byte>, q: nat, m: nat, j: nat)
    requires q + 8 * m <= |data| && j < m
    ensures TrackImageIdsAt(data, q, m)[j] == I32At(data, q + 8 * j)
    ensures TrackPoint2dIdxsAt(data, q, m)[j] == I32At(data, q + 8 * j + 4)
  {
    TrackImageIdAt(data, q, m, j);
    TrackPoint2dIdxAt(data, q, m, j);
  }

  lemma {:induction false} TrackImageIdAt(data: seq<Byte>, q: nat, m: nat, j: nat)
    requires q + 8 * m <= |data| && j < m
    ensures TrackImageIdsAt(data, q, m)[j] == I32At(data, q + 8 * j)
    decreases j
  {
    if j > 0 {
      assert TrackImageIdsAt(data, q, m) == [I32At(data, q)] + TrackImageIdsAt(data, q + 8, m - 1);
      TrackImageIdAt(data, q + 8, m - 1, j - 1);
    }
  }

  lemma {:induction false} TrackPoint2dIdxAt(data: seq<Byte>, q: nat, m: nat, j: nat)
    requires q + 8 * m <= |data| && j < m
    ensures TrackPoint2dIdxsAt(data, q, m)[j] == I32At(data, q + 8 * j + 4)
    decreases j
  {
    if j > 0 {
      assert TrackPoint2dIdxsAt(data, q, m) == [I32At(data, q + 4)] + TrackPoint2dIdxsAt(data, q + 8, m - 1);
      TrackPoint2dIdxAt(data, q + 8, m - 1, j - 1);
    }
  }

  /** Every track entry comes from its own slot of the `ii` pairs. */
  lemma TrackAtFields(data: seq<Byte>, q: nat, m: nat)
    requires q + 8 * m <= |data|
    ensures forall j :: 0 <= j < m ==>
      TrackImageIdsAt(data, q, m)[j] == I32At(data, q + 8 * j) && TrackPoint2dIdxsAt(data, q, m)[j] == I32At(data, q + 8 * j + 4)
  {
    forall j | 0 <= j < m
      ensures TrackImageIdsAt(data, q, m)[j] == I32At(data, q + 8 * j)
      ensures TrackPoint2dIdxsAt(data, q, m)[j] == I32At(data, q + 8 * j + 4)
    {
      TrackAtIndex(data, q, m, j);
    }
  }

  /**
   * One point at `pos`: the 43-byte block (u64 id, three doubles of xyz,
   * three colour bytes, a double error), a u64 track length `m` and `m`
   * pairs of i32 (image id, point2D index).
   */
  function PointAt(data: seq<Byte>, pos: nat): (r: Result<(Point3D, nat), DecodeError>)
    ensures r.Ok? ==> pos + 51 <= r.value.1 <= |data|
    ensures r.Err? ==> r.error == Truncated
  {
    if |data| < pos + 43 then Err(Truncated)
    else
      match TrackFrom(data, pos + 43)
      case Err(e) => Err(e)
      case Ok((ids, idxs, next)) =>
        Ok((Point3D(U64At(data, pos), F64sAt(data, pos + 8, 3), data[pos + 32..pos + 35], F64At(data, pos + 35), ids, idxs),
            next))
  }

  /** The u64 track length at `p` and that many pairs after it, split into the two columns. */
  function TrackFrom(data: seq<Byte>, p: nat): (r: Result<(seq<int>, seq<int>, nat), DecodeError>)
    ensures r.Ok? ==> |r.value.0| == |r.value.1| && p + 8 + 8 * |r.value.0| == r.value.2 <= |data|
    ensures r.Err? ==> r.error == Truncated
  {
    if |data| < p + 8 then Err(Truncated)
    else
      var m := U64At(data, p);
      if |data| < p + 8 + 8 * m then Err(Truncated)
      else Ok((TrackImageIdsAt(data, p + 8, m), TrackPoint2dIdxsAt(data, p + 8, m), p + 8 + 8 * m))
  }

  function PointId(pt: Point3D): int { pt.id }

  /** A point a writer can store: fields in range and the two track columns of one length. */
  predicate PointWellFormed(pt: Point3D)
  {
    && IsU64(pt.id)
    && |pt.xyz| == 3 && (forall i :: 0 <= i < 3 ==> IsF64(pt.xyz[i]))
    && |pt.rgb| == 3
    && IsF64(pt.error)
    && TrackWellFormed(pt.imageIds, pt.point2dIdxs)
  }

  predicate TrackWellFormed(ids: seq<int>, idxs: seq<int>)
  {
    && |ids| == |idxs| && IsU64(|ids|)
    && (forall j :: 0 <= j < |ids| ==> IsI32(ids[j]))
    && forall j :: 0 <= j < |idxs| ==> IsI32(idxs[j])
  }

  /** The 43-byte block: u64 id, three doubles of xyz, the colour bytes, the error. */
  function PointBlock(pt: Point3D): (s: seq<Byte>)
    ensures |s| == 16 + 8 * |pt.xyz| + |pt.rgb|
  {
    ConcatLength(pt.xyz, EncodeF64, 8);
    EncodeU64(pt.id) + Concat(pt.xyz, EncodeF64) + pt.rgb + EncodeF64(pt.error)
  }

  /** The (image id, point2D index) pairs, as many as the shorter column has. */
  function TrackPairs(ids: seq<int>, idxs: seq<int>): (s: seq<Byte>)
    ensures |s| == 8 * (if |ids| <= |idxs| then |ids| else |idxs|)
    decreases |ids|
  {
    if |ids| == 0 || |idxs| == 0 then []
    else EncodeI32(ids[0]) + EncodeI32(idxs[0]) + TrackPairs(ids[1..], idxs[1..])
  }

  /** The track length and the pairs. */
  function EncodeTrack(ids: seq<int>, idxs: seq<int>): (s: seq<Byte>)
    ensures |s| == 8 + |TrackPairs(ids, idxs)|
  {
    EncodeU64(|ids|) + TrackPairs(ids, idxs)
  }

  function EncodePoint(pt: Point3D): (s: seq<Byte>)
    ensures |s| == |PointBlock(pt)| + |EncodeTrack(pt.imageIds, pt.point2dIdxs)|
  {
    PointBlock(pt) + EncodeTrack(pt.imageIds, pt.point2dIdxs)
  }

  lemma PointBlockRoundTrip(data: seq<Byte>, pos: nat, b: nat, pt: Point3D)
    requires PointWellFormed(pt)
    requires b == pos + 43 <= |data| && data[pos..b] == PointBlock(pt)
    ensures U64At(data, pos) == pt.id && F64sAt(data, pos + 8, 3) == pt.xyz
    ensures data[pos + 32..pos + 35] == pt.rgb && F64At(data, pos + 35) == pt.error
  {
    var id, xyz, err := EncodeU64(pt.id), Concat(pt.xyz, EncodeF64), EncodeF64(pt.error);
    ConcatLength(pt.xyz, EncodeF64, 8);
    SplitAt(data, pos, pos + 35, b, id + xyz + pt.rgb, err);
    SplitAt(data, pos, pos + 32, pos + 35, id + xyz, pt.rgb);
    SplitAt(data, pos, pos + 8, pos + 32, id, xyz);
    U64RoundTrip(data, pos, pos + 8, pt.id);
    FloatsRoundTrip(pt.xyz, data, pos + 8, pos + 32);
    F64RoundTrip(data, pos + 35, b, pt.error);
  }

  lemma {:induction false} TrackPairsRoundTrip(data: seq<Byte>, a: nat, b: nat, ids: seq<int>, idxs: seq<int>)
    requires TrackWellFormed(ids, idxs)
    requires b == a + 8 * |ids| <= |data| && data[a..b] == TrackPairs(ids, idxs)
    ensures TrackImageIdsAt(data, a, |ids|) == ids && TrackPoint2dIdxsAt(data, a, |ids|) == idxs
    decreases |ids|
  {
    if |ids| > 0 {
      var id, idx, tail := EncodeI32(ids[0]), EncodeI32(idxs[0]), TrackPairs(ids[1..], idxs[1..]);
      assert TrackPairs(ids, idxs) == id + idx + tail;
      assert TrackWellFormed(ids[1..], idxs[1..]);
      SplitAt(data, a, a + 8, b, id + idx, tail);
      SplitAt(data, a, a + 4, a + 8, id, idx);
      I32RoundTrip(data, a, a + 4, ids[0]);
      I32RoundTrip(data, a + 4, a + 8, idxs[0]);
      TrackPairsRoundTrip(data, a + 8, b, ids[1..], idxs[1..]);
      assert [ids[0]] + ids[1..] == ids;
      assert [idxs[0]] + idxs[1..] == idxs;
    }
  }

  lemma TrackRoundTrip(data: seq<Byte>, a: nat, b: nat, ids: seq<int>, idxs: seq<int>)
    requires TrackWellFormed(ids, idxs)
    requires b == a + 8 + 8 * |ids| <= |data| && data[a..b] == EncodeTrack(ids, idxs)
    ensures TrackFrom(data, a) == Ok((ids, idxs, b))
  {
    SplitAt(data, a, a + 8, b, EncodeU64(|ids|), TrackPairs(ids, idxs));
    U64RoundTrip(data, a, a + 8, |ids|);
    TrackPairsRoundTrip(data, a + 8, b, ids, idxs);
  }

  lemma PointRoundTripAt(data: seq<Byte>, pos: nat, pt: Point3D)
    requires PointWellFormed(pt)
    requires pos + |EncodePoint(pt)| <= |data| && data[pos..pos + |EncodePoint(pt)|] == EncodePoint(pt)
    ensures PointAt(data, pos) == Ok((pt, pos + |EncodePoint(pt)|))
  {
    var b := pos + 51 + 8 * |pt.imageIds|;
    assert b == pos + |EncodePoint(pt)|;
    SplitAt(data, pos, pos + 43, b, PointBlock(pt), EncodeTrack(pt.imageIds, pt.point2dIdxs));
    PointBlockRoundTrip(data, pos, pos + 43, pt);
    TrackRoundTrip(data, pos + 43, b, pt.imageIds, pt.point2dIdxs);
  }

  lemma PointReadsBack(data: seq<Byte>, pos: nat, pt: Point3D)
    ensures ReadsBack(PointAt, EncodePoint, PointWellFormed, data, pos, pt)
  {
    if PointWellFormed(pt) && pos + |EncodePoint(pt)| <= |data| && data[pos..pos + |EncodePoint(pt)|] == EncodePoint(pt) {
      PointRoundTripAt(data, pos, pt);
    }
  }

  /** `PointAt` reads back what `EncodePoint` wrote. */
  lemma PointRoundTrip()
    ensures Inverts(PointAt, EncodePoint, PointWellFormed)
  {
    forall data: seq<Byte>, pos: nat, pt: Point3D
      ensures ReadsBack(PointAt, EncodePoint, PointWellFormed, data, pos, pt)
    {
      PointReadsBack(data, pos, pt);
    }
  }

  lemma TrackColumnsPrefix(data: seq<Byte>, q: nat, m: nat, k: nat)
    requires q + 8 * m <= k <= |data|
    ensures TrackImageIdsAt(data[..k], q, m) == TrackImageIdsAt(data, q, m)
    ensures TrackPoint2dIdxsAt(data[..k], q, m) == TrackPoint2dIdxsAt(data, q, m)
  {
    TrackImageIdsPrefix(data, q, m, k);
    TrackPoint2dIdxsPrefix(data, q, m, k);
  }

  lemma {:induction false} TrackImageIdsPrefix(data: seq<Byte>, q: nat, m: nat, k: nat)
    requires q + 8 * m <= k <= |data|
    ensures TrackImageIdsAt(data[..k], q, m) == TrackImageIdsAt(data, q, m)
    decreases m
  {
    if m > 0 {
      PrefixSlice(data, k, q, q + 4);
      TrackImageIdsPrefix(data, q + 8, m - 1, k);
    }
  }

  lemma {:induction false} TrackPoint2dIdxsPrefix(data: seq<Byte>, q: nat, m: nat, k: nat)
    requires q + 8 * m <= k <= |data|
    ensures TrackPoint2dIdxsAt(data[..k], q, m) == TrackPoint2dIdxsAt(data, q, m)
    decreases m
  {
    if m > 0 {
      PrefixSlice(data, k, q + 4, q + 8);
      TrackPoint2dIdxsPrefix(data, q + 8, m - 1, k);
    }
  }

  lemma TrackPrefix(data: seq<Byte>, p: nat, k: nat)
    requires TrackFrom(data, p).Ok? && p <= k <= |data|
    ensures if k < TrackFrom(data, p).value.2 then TrackFrom(data[..k], p).Err?
            else TrackFrom(data[..k], p) == TrackFrom(data, p)
  {
    if p + 8 <= k {
      PrefixSlice(data, k, p, p + 8);
      var m := U64At(data, p);
      if p + 8 + 8 * m <= k {
        TrackColumnsPrefix(data, p + 8, m, k);
      }
    }
  }

  lemma PointBlockPrefix(data: seq<Byte>, pos: nat, k: nat)
    requires pos + 43 <= k <= |data|
    ensures U64At(data[..k], pos) == U64At(data, pos) && F64At(data[..k], pos + 35) == F64At(data, pos + 35)
    ensures F64sAt(data[..k], pos + 8, 3) == F64sAt(data, pos + 8, 3)
    ensures data[..k][pos + 32..pos + 35] == data[pos + 32..pos + 35]
  {
    PrefixSlice(data, k, pos, pos + 8);
    PrefixSlice(data, k, pos + 32, pos + 35);
    PrefixSlice(data, k, pos + 35, pos + 43);
    FloatsPrefix(data, pos + 8, 3, k);
  }

  lemma PointPrefixAt(data: seq<Byte>, pos: nat, k: nat)
    requires PointAt(data, pos).Ok? && k <= |data|
    ensures pos <= PointAt(data, pos).value.1 <= |data|
    ensures if k < PointAt(data, pos).value.1 then PointAt(data[..k], pos).Err?
            else PointAt(data[..k], pos) == PointAt(data, pos)
  {
    if pos + 43 <= k {
      PointBlockPrefix(data, pos, k);
      TrackPrefix(data, pos + 43, k);
    }
  }

  /** A point read looks at no byte past the record. */
  lemma PointPrefixClosed()
    ensures PrefixClosed(PointAt)
  {
    forall data: seq<Byte>, pos: nat | PointAt(data, pos).Ok?
      ensures pos <= PointAt(data, pos).value.1 <= |data|
    {
      PointPrefixAt(data, pos, |data|);
    }
    forall data: seq<Byte>, pos: nat, k: nat | PointAt(data, pos).Ok? && k <= |data|
      ensures if k < PointAt(data, pos).value.1 then PointAt(data[..k], pos).Err?
              else PointAt(data[..k], pos) == PointAt(data, pos)
    {
      PointPrefixAt(data, pos, k);
    }
  }

  /** `read_points3d_binary` on the bytes of the file. */
  function ReadPoints(data: seq<Byte>): Result<OMap<int, Point3D>, DecodeError>
  {
    ReadFile(data, PointAt, PointId)
  }

  // ----------------------------------------------------------- record shape

  /** A decoded image holds a four-component quaternion and a three-component translation. */
  predicate ImageShape(im: Image)
  {
    |im.qvec| == 4 && |im.tvec| == 3
  }

  /** A decoded point holds three coordinates and three colour bytes. */
  predicate PointShape(pt: Point3D)
  {
    |pt.xyz| == 3 && |pt.rgb| == 3
  }

  lemma ImagesShaped()
    ensures Yields(ImageAt, ImageShape)
  {
    forall data: seq<Byte>, pos: nat | ImageAt(data, pos).Ok?
      ensures ImageShape(ImageAt(data, pos).value.0)
    {
    }
  }

  lemma PointsShaped()
    ensures Yields(PointAt, PointShape)
  {
    forall data: seq<Byte>, pos: nat | PointAt(data, pos).Ok?
      ensures PointShape(PointAt(data, pos).value.0)
    {
    }
  }

  // ------------------------------------------------------------ whole files

  /** A written cameras.bin reads back as the dict of its cameras, later ids overwriting earlier ones. */
  lemma CamerasFileRoundTrip(cs: seq<Camera>)
    requires IsU64(|cs|) && forall i :: 0 <= i < |cs| ==> CameraWellFormed(cs[i])
    ensures ReadCameras(EncodeFile(cs, EncodeCamera)) == Ok(FromRecords(cs, CameraId))
  {
    CameraRoundTrip();
    FileRoundTrip(CameraAt, EncodeCamera, CameraWellFormed, CameraId, cs);
  }

  /** A cameras.bin cut short anywhere gives no dict at all. */
  lemma CamerasFileTruncated(cs: seq<Camera>, k: nat)
    requires IsU64(|cs|) && forall i :: 0 <= i < |cs| ==> CameraWellFormed(cs[i])
    requires k < |EncodeFile(cs, EncodeCamera)|
    ensures ReadCameras(EncodeFile(cs, EncodeCamera)[..k]).Err?
  {
    CameraRoundTrip();
    CameraPrefixClosed();
    FileTruncated(CameraAt, EncodeCamera, CameraWellFormed, CameraId, cs, k);
  }

  lemma ImagesFileRoundTrip(ims: seq<Image>)
    requires IsU64(|ims|) && forall i :: 0 <= i < |ims| ==> ImageWellFormed(ims[i])
    ensures ReadImages(EncodeFile(ims, EncodeImage)) == Ok(FromRecords(ims, ImageId))
  {
    ImageRoundTrip();
    FileRoundTrip(ImageAt, EncodeImage, ImageWellFormed, ImageId, ims);
  }

  lemma ImagesFileTruncated(ims: seq<Image>, k: nat)
    requires IsU64(|ims|) && forall i :: 0 <= i < |ims| ==> ImageWellFormed(ims[i])
    requires k < |EncodeFile(ims, EncodeImage)|
    ensures ReadImages(EncodeFile(ims, EncodeImage)[..k]).Err?
  {
    ImageRoundTrip();
    ImagePrefixClosed();
    FileTruncated(ImageAt, EncodeImage, ImageWellFormed, ImageId, ims, k);
  }

  lemma PointsFileRoundTrip(pts: seq<Point3D>)
    requires IsU64(|pts|) && forall i :: 0 <= i < |pts| ==> PointWellFormed(pts[i])
    ensures ReadPoints(EncodeFile(pts, EncodePoint)) == Ok(FromRecords(pts, PointId))
  {
    PointRoundTrip();
    FileRoundTrip(PointAt, EncodePoint, PointWellFormed, PointId, pts);
  }

  lemma PointsFileTruncated(pts: seq<Point3D>, k: nat)
    requires IsU64(|pts|) && forall i :: 0 <= i < |pts| ==> PointWellFormed(pts[i])
    requires k < |EncodeFile(pts, EncodePoint)|
    ensures ReadPoints(EncodeFile(pts, EncodePoint)[..k]).Err?
  {
    PointRoundTrip();
    PointPrefixClosed();
    FileTruncated(PointAt, EncodePoint, PointWellFormed, PointId, pts, k);
  }
}

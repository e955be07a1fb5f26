/**
 * The readers of the three model files as they run: a cursor moves through
 * the open file, `read_next_bytes` takes the next bytes and unpacks them, a
 * loop runs once per record and stores each record in the dict, and an
 * image name is read one byte at a time. Each reader computes exactly the
 * function of the file's bytes that `ColmapFormat` defines, so everything
 * proved there about the decoders holds of these methods.
 */
module ColmapReader {
  import opened Wrappers
  import opened Bytes
  import opened OrderedMaps
  import opened RecordStreams
  import opened ColmapFormat
  import opened ByteFiles

  /** `read_next_bytes`: the next `n` bytes; the unpack raises when fewer arrived. */
  method ReadNextBytes(f: ByteFile, n: nat) returns (r: Result<seq<Byte>, DecodeError>)
    requires f.Valid()
    modifies f
    ensures f.Valid()
    ensures r.Ok? <==> old(f.pos) + n <= |f.data|
    ensures r.Ok? ==> f.pos == old(f.pos) + n && r.value == f.data[old(f.pos)..f.pos]
    ensures r.Ok? ==> |r.value| == n && ChunkOf(f.data, old(f.pos), r.value)
    ensures r.Err? ==> r.error == Truncated
  {
    var chunk := f.Read(n);
    if |chunk| < n {
      return Err(Truncated);
    }
    return Ok(chunk);
  }

  /** The outcome `r` of a record method, with the cursor left at `pos`, is the decoder's `spec`. */
  ghost predicate Decoded<T>(r: Result<T, DecodeError>, spec: Result<(T, nat), DecodeError>, pos: nat)
  {
    if spec.Ok? then r == Ok(spec.value.0) && pos == spec.value.1 else r == Err(spec.error)
  }

  // ------------------------------------------------------ unpacking a chunk

  /** A chunk read at `p`, as the unpack of its bytes sees them. */
  ghost predicate ChunkOf(data: seq<Byte>, p: nat, chunk: seq<Byte>)
  {
    p + |chunk| <= |data| && chunk == data[p..p + |chunk|]
  }

  /** A field unpacked from a chunk is the field of the file at the chunk's position plus its offset. */
  lemma ChunkSlice(data: seq<Byte>, p: nat, chunk: seq<Byte>, off: nat, w: nat)
    requires ChunkOf(data, p, chunk) && off + w <= |chunk|
    ensures chunk[off..off + w] == data[p + off..p + off + w]
  {
    var lhs, rhs := chunk[off..off + w], data[p + off..p + off + w];
    assert forall i :: 0 <= i < w ==> lhs[i] == rhs[i];
  }

  lemma ChunkI32(data: seq<Byte>, p: nat, chunk: seq<Byte>, off: nat)
    requires ChunkOf(data, p, chunk) && off + 4 <= |chunk|
    ensures I32At(chunk, off) == I32At(data, p + off)
  {
    ChunkSlice(data, p, chunk, off, 4);
  }

  lemma ChunkU64(data: seq<Byte>, p: nat, chunk: seq<Byte>, off: nat)
    requires ChunkOf(data, p, chunk) && off + 8 <= |chunk|
    ensures U64At(chunk, off) == U64At(data, p + off)
  {
    ChunkSlice(data, p, chunk, off, 8);
  }

  lemma ChunkF64(data: seq<Byte>, p: nat, chunk: seq<Byte>, off: nat)
    requires ChunkOf(data, p, chunk) && off + 8 <= |chunk|
    ensures F64At(chunk, off) == F64At(data, p + off)
  {
    ChunkU64(data, p, chunk, off);
  }

  lemma ChunkI64(data: seq<Byte>, p: nat, chunk: seq<Byte>, off: nat)
    requires ChunkOf(data, p, chunk) && off + 8 <= |chunk|
    ensures I64At(chunk, off) == I64At(data, p + off)
  {
    ChunkSlice(data, p, chunk, off, 8);
  }

  lemma {:induction false} ChunkF64s(data: seq<Byte>, p: nat, chunk: seq<Byte>, off: nat, k: nat)
    requires ChunkOf(data, p, chunk) && off + 8 * k <= |chunk|
    ensures F64sAt(chunk, off, k) == F64sAt(data, p + off, k)
    decreases k
  {
    if k > 0 {
      ChunkF64(data, p, chunk, off);
      ChunkF64s(data, p, chunk, off + 8, k - 1);
    }
  }

  lemma {:induction false} ChunkPointIds(data: seq<Byte>, p: nat, chunk: seq<Byte>, off: nat, m: nat)
    requires ChunkOf(data, p, chunk) && off + 24 * m <= |chunk|
    ensures PointIdsAt(chunk, off, m) == PointIdsAt(data, p + off, m)
    decreases m
  {
    if m > 0 {
      ChunkI64(data, p, chunk, off + 16);
      ChunkPointIds(data, p, chunk, off + 24, m - 1);
    }
  }

  lemma {:induction false} ChunkImageIds(data: seq<Byte>, p: nat, chunk: seq<Byte>, off: nat, m: nat)
    requires ChunkOf(data, p, chunk) && off + 8 * m <= |chunk|
    ensures TrackImageIdsAt(chunk, off, m) == TrackImageIdsAt(data, p + off, m)
    decreases m
  {
    if m > 0 {
      ChunkI32(data, p, chunk, off);
      ChunkImageIds(data, p, chunk, off + 8, m - 1);
    }
  }

  lemma {:induction false} ChunkPoint2dIdxs(data: seq<Byte>, p: nat, chunk: seq<Byte>, off: nat, m: nat)
    requires ChunkOf(data, p, chunk) && off + 8 * m <= |chunk|
    ensures TrackPoint2dIdxsAt(chunk, off, m) == TrackPoint2dIdxsAt(data, p + off, m)
    decreases m
  {
    if m > 0 {
      ChunkI32(data, p, chunk, off + 4);
      ChunkPoint2dIdxs(data, p, chunk, off + 8, m - 1);
    }
  }

  // ---------------------------------------------------------------- cameras

  /** A camera read, in terms of the file's fields, once its block fits. */
  lemma CameraAtFields(data: seq<Byte>, p: nat, model: CameraModel, k: nat)
    requires p + 24 <= |data| && model == ModelOf(I32At(data, p + 4)) && k == NumParams(model)
    ensures |data| < p + 24 + 8 * k ==> CameraAt(data, p) == Err(Truncated)
    ensures p + 24 + 8 * k <= |data| ==>
      CameraAt(data, p) == Ok((Camera(I32At(data, p), model, U64At(data, p + 8), U64At(data, p + 16),
                                      F64sAt(data, p + 24, k)), p + 24 + 8 * k))
  {
  }

  /** The four fields of a camera block, unpacked from the chunk. */
  lemma CameraBlockFields(data: seq<Byte>, p: nat, block: seq<Byte>)
    requires ChunkOf(data, p, block) && |block| == 24
    ensures I32At(block, 0) == I32At(data, p) && I32At(block, 4) == I32At(data, p + 4)
    ensures U64At(block, 8) == U64At(data, p + 8) && U64At(block, 16) == U64At(data, p + 16)
  {
    ChunkI32(data, p, block, 0);
    ChunkI32(data, p, block, 4);
    ChunkU64(data, p, block, 8);
    ChunkU64(data, p, block, 16);
  }

  /** One camera at the cursor: `iiQQ`, then as many doubles as the model code's table entry. */
  method ReadCamera(f: ByteFile) returns (r: Result<Camera, DecodeError>)
    requires f.Valid()
    modifies f
    ensures f.Valid() && Decoded(r, CameraAt(f.data, old(f.pos)), f.pos)
  {
    ghost var p := f.pos;
    var props := ReadNextBytes(f, 24);
    if props.Err? {
      return Err(Truncated);
    }
    var block := props.value;
    var cameraId := I32At(block, 0);
    var model := ModelOf(I32At(block, 4));
    var width := U64At(block, 8);
    var height := U64At(block, 16);
    var numParams := NumParams(model);
    CameraBlockFields(f.data, p, block);
    CameraAtFields(f.data, p, model, numParams);
    var raw := ReadNextBytes(f, 8 * numParams);
    if raw.Err? {
      return Err(Truncated);
    }
    ChunkF64s(f.data, p + 24, raw.value, 0, numParams);
    var params := F64sAt(raw.value, 0, numParams);
    return Ok(Camera(cameraId, model, width, height, params));
  }

  /** `read_cameras_binary`: the count, then one camera per iteration, each stored under its id. */
  method ReadCamerasBinary(bytes: seq<Byte>) returns (r: Result<OMap<int, Camera>, DecodeError>)
    ensures r == ReadCameras(bytes)
  {
    var f := new ByteFile.Open(bytes);
    var head := ReadNextBytes(f, 8);
    if head.Err? {
      return Err(Truncated);
    }
    ChunkU64(bytes, 0, head.value, 0);
    var numCameras := U64At(head.value, 0);
    var cameras := Empty();
    ghost var read: seq<Camera> := [];
    var i := 0;
    while i < numCameras
      invariant f.Valid() && f.data == bytes && i <= numCameras
      invariant Records(bytes, 8, i, CameraAt) == Ok((read, f.pos))
      invariant cameras == FromRecords(read, CameraId)
    {
      RecordsSnoc(bytes, 8, i, CameraAt);
      var camera := ReadCamera(f);
      if camera.Err? {
        RecordsStop(bytes, 8, i + 1, numCameras, CameraAt);
        ReadFileFails(bytes, CameraAt, CameraId);
        return Err(camera.error);
      }
      cameras := Insert(cameras, camera.value.id, camera.value);
      FromRecordsSnoc(read, CameraId, camera.value);
      read := read + [camera.value];
      i := i + 1;
    }
    ReadFileDone(bytes, CameraAt, CameraId, read, f.pos);
    return Ok(cameras);
  }

  // ----------------------------------------------------------------- images

  /** A name read so far, `s`, in front of the rest of the name. */
  function Prefixed(s: string, rest: Result<(string, nat), DecodeError>): (r: Result<(string, nat), DecodeError>)
    ensures r.Ok? <==> rest.Ok?
  {
    if rest.Ok? then Ok((s + rest.value.0, rest.value.1)) else rest
  }

  /** Reading one more ASCII byte moves it from the rest of the name to the part read. */
  lemma NameStep(data: seq<Byte>, start: nat, s: string, q: nat)
    requires q < |data| && 0 < data[q] < 128
    requires NameAt(data, start) == Prefixed(s, NameAt(data, q))
    ensures NameAt(data, start) == Prefixed(s + [data[q] as char], NameAt(data, q + 1))
  {
    var c := data[q] as char;
    if NameAt(data, q + 1).Ok? {
      var rest := NameAt(data, q + 1).value.0;
      assert s + ([c] + rest) == s + [c] + rest;
    }
  }

  /** The byte-at-a-time name loop: read characters until the 0 byte, decoding each on its own. */
  method ReadImageName(f: ByteFile) returns (r: Result<string, DecodeError>)
    requires f.Valid()
    modifies f
    ensures f.Valid() && Decoded(r, NameAt(f.data, old(f.pos)), f.pos)
  {
    ghost var start := f.pos;
    var name := "";
    var current := ReadNextBytes(f, 1);
    if current.Err? {
      return Err(Truncated);
    }
    if NameAt(f.data, start).Ok? {
      assert name + NameAt(f.data, start).value.0 == NameAt(f.data, start).value.0;
    }
    while current.value[0] != 0
      invariant f.Valid() && current.Ok? && |current.value| == 1
      invariant start + |name| + 1 == f.pos && current.value[0] == f.data[f.pos - 1]
      invariant NameAt(f.data, start) == Prefixed(name, NameAt(f.data, f.pos - 1))
      decreases |f.data| - f.pos
    {
      if current.value[0] >= 128 {
        return Err(NonAsciiName);
      }
      NameStep(f.data, start, name, f.pos - 1);
      name := name + [current.value[0] as char];
      current := ReadNextBytes(f, 1);
      if current.Err? {
        return Err(Truncated);
      }
    }
    assert name + "" == name;
    return Ok(name);
  }

  /** The `Q` count and the `ddq` triples after a name; only the third field of each triple is kept. */
  method ReadPointIds(f: ByteFile) returns (r: Result<seq<int>, DecodeError>)
    requires f.Valid()
    modifies f
    ensures f.Valid() && Decoded(r, PointIdsFrom(f.data, old(f.pos)), f.pos)
  {
    ghost var q := f.pos;
    var countBytes := ReadNextBytes(f, 8);
    if countBytes.Err? {
      return Err(Truncated);
    }
    ChunkU64(f.data, q, countBytes.value, 0);
    var numPoints2d := U64At(countBytes.value, 0);
    var triples := ReadNextBytes(f, 24 * numPoints2d);
    if triples.Err? {
      return Err(Truncated);
    }
    ChunkPointIds(f.data, q + 8, triples.value, 0, numPoints2d);
    return Ok(PointIdsAt(triples.value, 0, numPoints2d));
  }

  /** An image whose name or point ids raise raises the same error. */
  lemma ImageStagesFail(data: seq<Byte>, p: nat)
    requires p + 64 <= |data|
    ensures var name := NameAt(data, p + 64);
      && (name.Err? ==> ImageAt(data, p) == Err(name.error))
      && (name.Ok? && PointIdsFrom(data, name.value.1).Err? ==> ImageAt(data, p) == Err(Truncated))
  {
  }

  /** An image read whose name and point ids decode, in terms of the file's fields. */
  lemma ImageAtFields(data: seq<Byte>, p: nat)
    requires p + 64 <= |data|
    requires NameAt(data, p + 64).Ok? && PointIdsFrom(data, NameAt(data, p + 64).value.1).Ok?
    ensures var name := NameAt(data, p + 64).value;
      var ids := PointIdsFrom(data, name.1).value;
      ImageAt(data, p) == Ok((Image(I32At(data, p), F64sAt(data, p + 4, 4), F64sAt(data, p + 36, 3), I32At(data, p + 60),
                                    name.0, ids.0), ids.1))
  {
  }

  /** The ids of an image block, unpacked from the chunk. */
  lemma ImageBlockIds(data: seq<Byte>, p: nat, block: seq<Byte>)
    requires ChunkOf(data, p, block) && |block| == 64
    ensures I32At(block, 0) == I32At(data, p) && I32At(block, 60) == I32At(data, p + 60)
  {
    ChunkI32(data, p, block, 0);
    ChunkI32(data, p, block, 60);
  }

  /** The pose of an image block, unpacked from the chunk. */
  lemma ImageBlockPose(data: seq<Byte>, p: nat, block: seq<Byte>)
    requires ChunkOf(data, p, block) && |block| == 64
    ensures F64sAt(block, 4, 4) == F64sAt(data, p + 4, 4) && F64sAt(block, 36, 3) == F64sAt(data, p + 36, 3)
  {
    ChunkF64s(data, p, block, 4, 4);
    ChunkF64s(data, p, block, 36, 3);
  }

  /** One image at the cursor: `idddddddi`, the name, then the point ids. */
  method ReadImage(f: ByteFile) returns (r: Result<Image, DecodeError>)
    requires f.Valid()
    modifies f
    ensures f.Valid() && Decoded(r, ImageAt(f.data, old(f.pos)), f.pos)
  {
    ghost var p := f.pos;
    var props := ReadNextBytes(f, 64);
    if props.Err? {
      return Err(Truncated);
    }
    var block := props.value;
    ImageStagesFail(f.data, p);
    var imageId := I32At(block, 0);
    var qvec := F64sAt(block, 4, 4);
    var tvec := F64sAt(block, 36, 3);
    var cameraId := I32At(block, 60);
    var name := ReadImageName(f);
    if name.Err? {
      return Err(name.error);
    }
    var point3dIds := ReadPointIds(f);
    if point3dIds.Err? {
      return Err(Truncated);
    }
    ImageBlockIds(f.data, p, block);
    ImageBlockPose(f.data, p, block);
    ImageAtFields(f.data, p);
    return Ok(Image(imageId, qvec, tvec, cameraId, name.value, point3dIds.value));
  }

  /** `read_images_binary`: the count, then one image per iteration, each stored under its id. */
  method ReadImagesBinary(bytes: seq<Byte>) returns (r: Result<OMap<int, Image>, DecodeError>)
    ensures r == ReadImages(bytes)
  {
    var f := new ByteFile.Open(bytes);
    var head := ReadNextBytes(f, 8);
    if head.Err? {
      return Err(Truncated);
    }
    ChunkU64(bytes, 0, head.value, 0);
    var numRegImages := U64At(head.value, 0);
    var images := Empty();
    ghost var read: seq<Image> := [];
    var i := 0;
    while i < numRegImages
      invariant f.Valid() && f.data == bytes && i <= numRegImages
      invariant Records(bytes, 8, i, ImageAt) == Ok((read, f.pos))
      invariant images == FromRecords(read, ImageId)
    {
      RecordsSnoc(bytes, 8, i, ImageAt);
      var image := ReadImage(f);
      if image.Err? {
        RecordsStop(bytes, 8, i + 1, numRegImages, ImageAt);
        ReadFileFails(bytes, ImageAt, ImageId);
        return Err(image.error);
      }
      images := Insert(images, image.value.id, image.value);
      FromRecordsSnoc(read, ImageId, image.value);
      read := read + [image.value];
      i := i + 1;
    }
    ReadFileDone(bytes, ImageAt, ImageId, read, f.pos);
    return Ok(images);
  }

  // ----------------------------------------------------------------- points

  /** The `Q` track length and the `ii` pairs, split into image ids and point2D indices. */
  method ReadTrack(f: ByteFile) returns (r: Result<(seq<int>, seq<int>), DecodeError>)
    requires f.Valid()
    modifies f
    ensures f.Valid()
    ensures var t := TrackFrom(f.data, old(f.pos));
      if t.Ok? then r == Ok((t.value.0, t.value.1)) && f.pos == t.value.2 else r == Err(t.error)
  {
    ghost var q := f.pos;
    var lengthBytes := ReadNextBytes(f, 8);
    if lengthBytes.Err? {
      return Err(Truncated);
    }
    ChunkU64(f.data, q, lengthBytes.value, 0);
    var trackLength := U64At(lengthBytes.value, 0);
    var elems := ReadNextBytes(f, 8 * trackLength);
    if elems.Err? {
      return Err(Truncated);
    }
    ChunkImageIds(f.data, q + 8, elems.value, 0, trackLength);
    ChunkPoint2dIdxs(f.data, q + 8, elems.value, 0, trackLength);
    var imageIds := TrackImageIdsAt(elems.value, 0, trackLength);
    var point2dIdxs := TrackPoint2dIdxsAt(elems.value, 0, trackLength);
    return Ok((imageIds, point2dIdxs));
  }

  /** A point read whose track decodes, in terms of the file's fields. */
  lemma PointAtFields(data: seq<Byte>, p: nat)
    requires p + 43 <= |data| && TrackFrom(data, p + 43).Ok?
    ensures var t := TrackFrom(data, p + 43).value;
      PointAt(data, p) == Ok((Point3D(U64At(data, p), F64sAt(data, p + 8, 3), data[p + 32..p + 35], F64At(data, p + 35),
                                      t.0, t.1), t.2))
  {
  }

  /** The fields of a point block, unpacked from the chunk. */
  lemma PointBlockFields(data: seq<Byte>, p: nat, block: seq<Byte>)
    requires ChunkOf(data, p, block) && |block| == 43
    ensures U64At(block, 0) == U64At(data, p) && F64sAt(block, 8, 3) == F64sAt(data, p + 8, 3)
    ensures block[32..35] == data[p + 32..p + 35] && F64At(block, 35) == F64At(data, p + 35)
  {
    ChunkU64(data, p, block, 0);
    ChunkF64s(data, p, block, 8, 3);
    ChunkSlice(data, p, block, 32, 3);
    ChunkF64(data, p, block, 35);
  }

  /** One point at the cursor: `QdddBBBd`, then its track. */
  method ReadPoint(f: ByteFile) returns (r: Result<Point3D, DecodeError>)
    requires f.Valid()
    modifies f
    ensures f.Valid() && Decoded(r, PointAt(f.data, old(f.pos)), f.pos)
  {
    ghost var p := f.pos;
    var props := ReadNextBytes(f, 43);
    if props.Err? {
      return Err(Truncated);
    }
    var block := props.value;
    var pointId := U64At(block, 0);
    var xyz := F64sAt(block, 8, 3);
    var rgb := block[32..35];
    var error := F64At(block, 35);
    var track := ReadTrack(f);
    if track.Err? {
      return Err(Truncated);
    }
    PointBlockFields(f.data, p, block);
    PointAtFields(f.data, p);
    return Ok(Point3D(pointId, xyz, rgb, error, track.value.0, track.value.1));
  }

  /** `read_points3d_binary`: the count, then one point per iteration, each stored under its id. */
  method ReadPoints3dBinary(bytes: seq<Byte>) returns (r: Result<OMap<int, Point3D>, DecodeError>)
    ensures r == ReadPoints(bytes)
  {
    var f := new ByteFile.Open(bytes);
    var head := ReadNextBytes(f, 8);
    if head.Err? {
      return Err(Truncated);
    }
    ChunkU64(bytes, 0, head.value, 0);
    var numPoints := U64At(head.value, 0);
    var points: OMap<int, Point3D> := Empty();
    ghost var read: seq<Point3D> := [];
    var i := 0;
    while i < numPoints
      invariant f.Valid() && f.data == bytes && i <= numPoints
      invariant Records(bytes, 8, i, PointAt) == Ok((read, f.pos))
      invariant points == FromRecords(read, PointId)
    {
      RecordsSnoc(bytes, 8, i, PointAt);
      var point := ReadPoint(f);
      if point.Err? {
        RecordsStop(bytes, 8, i + 1, numPoints, PointAt);
        ReadFileFails(bytes, PointAt, PointId);
        return Err(point.error);
      }
      points := Insert(points, point.value.id, point.value);
      FromRecordsSnoc(read, PointId, point.value);
      read := read + [point.value];
      i := i + 1;
    }
    ReadFileDone(bytes, PointAt, PointId, read, f.pos);
    return Ok(points);
  }
}

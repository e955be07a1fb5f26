/**
 * The camera record the pipeline builds before it creates the scene camera:
 * the first camera of the cameras dict, its size, its model name and the
 * focal lengths and principal point that its model's parameter list holds.
 * A field the model does not provide stays `None`.
 */
module Intrinsics {
  import opened Wrappers
  import opened Bytes
  import opened OrderedMaps
  import opened RecordStreams
  import opened ColmapFormat

  datatype CameraParams = CameraParams(
    width: nat, height: nat,
    fx: Option<Float64>, fy: Option<Float64>, cx: Option<Float64>, cy: Option<Float64>,
    model: string)

  /** The four models whose first four parameters are fx, fy, cx, cy. */
  predicate FourParamModel(m: CameraModel)
  {
    m == Pinhole || m == OpenCV || m == OpenCVFisheye || m == FullOpenCV
  }

  /** The record for one camera, choosing the branch by the stored model name. */
  function IntrinsicsOf(c: Camera): (p: CameraParams)
    ensures p.width == c.width && p.height == c.height && p.model == ModelName(c.model)
    ensures p.fx.None? <==> |c.params| == 0
    ensures p.fx.Some? ==> p.fx.value == c.params[0]
    ensures p.cx.Some? <==> p.cy.Some?
    ensures p.cx.Some? <==>
      (c.model == SimplePinhole && |c.params| >= 3) || (FourParamModel(c.model) && |c.params| >= 4)
    ensures p.fy == (if FourParamModel(c.model) && |c.params| >= 4 then Some(c.params[1]) else p.fx)
    ensures p.cx.Some? ==>
      (p.cx.value, p.cy.value) == (if c.model == SimplePinhole then (c.params[1], c.params[2]) else (c.params[2], c.params[3]))
  {
    var name := ModelName(c.model);
    ModelNamesDistinct(c.model, SimplePinhole);
    ModelNamesDistinct(c.model, Pinhole);
    ModelNamesDistinct(c.model, OpenCV);
    ModelNamesDistinct(c.model, OpenCVFisheye);
    ModelNamesDistinct(c.model, FullOpenCV);
    if name == "SIMPLE_PINHOLE" && |c.params| >= 3 then
      CameraParams(c.width, c.height, Some(c.params[0]), Some(c.params[0]), Some(c.params[1]), Some(c.params[2]), name)
    else if name in ["PINHOLE", "OPENCV", "OPENCV_FISHEYE", "FULL_OPENCV"] && |c.params| >= 4 then
      CameraParams(c.width, c.height, Some(c.params[0]), Some(c.params[1]), Some(c.params[2]), Some(c.params[3]), name)
    else if |c.params| > 0 then
      CameraParams(c.width, c.height, Some(c.params[0]), Some(c.params[0]), None, None, name)
    else
      CameraParams(c.width, c.height, None, None, None, None, name)
  }

  /** `camera_params`: empty when there is no camera, else the record of the first camera in dict order. */
  function CameraParamsOf(cameras: OMap<int, Camera>): (r: Option<CameraParams>)
    requires OrderedMaps.Valid(cameras)
    ensures r.None? <==> |cameras.keys| == 0
    ensures r.Some? ==> cameras.keys[0] in cameras.entries && r.value == IntrinsicsOf(cameras.entries[cameras.keys[0]])
  {
    if |cameras.keys| == 0 then None else Some(IntrinsicsOf(Values(cameras)[0]))
  }

  /** The camera carries exactly as many parameters as its model has. */
  predicate HasOwnParams(c: Camera)
  {
    |c.params| == NumParams(c.model)
  }

  /**
   * A camera as the reader builds it carries exactly its model's parameters,
   * so the principal point is known for exactly the five pinhole-like models,
   * at parameters 1 and 2 for SIMPLE_PINHOLE and 2 and 3 for the others, and
   * the focal length for every model but "UNKNOWN".
   */
  lemma ReadCameraIntrinsics(c: Camera)
    requires HasOwnParams(c)
    ensures IntrinsicsOf(c).cx.Some? <==> c.model == SimplePinhole || FourParamModel(c.model)
    ensures IntrinsicsOf(c).fx.Some? <==> c.model != UnknownModel
    ensures c.model == SimplePinhole ==>
      IntrinsicsOf(c).cx == Some(c.params[1]) && IntrinsicsOf(c).cy == Some(c.params[2])
    ensures FourParamModel(c.model) ==>
      IntrinsicsOf(c).cx == Some(c.params[2]) && IntrinsicsOf(c).cy == Some(c.params[3])
  {
  }

  /** Every camera a cameras.bin yields carries its model's parameter count. */
  lemma CamerasCarryTheirParams()
    ensures Yields(CameraAt, HasOwnParams)
  {
    forall data: seq<Byte>, pos: nat | CameraAt(data, pos).Ok?
      ensures HasOwnParams(CameraAt(data, pos).value.0)
    {
    }
  }

  /** The last position holding a camera with this id, or -1 when none does. */
  function LastWithId(cs: seq<Camera>, id: int): (i: int)
    ensures -1 <= i < |cs|
    ensures i >= 0 ==> cs[i].id == id && forall j :: i < j < |cs| ==> cs[j].id != id
    ensures i < 0 ==> forall j :: 0 <= j < |cs| ==> cs[j].id != id
  {
    if |cs| == 0 then -1
    else if cs[|cs| - 1].id == id then |cs| - 1
    else LastWithId(cs[..|cs| - 1], id)
  }

  /**
   * For a written cameras.bin the record comes from the first id written,
   * with the parameters of the last camera written under that id, since a
   * repeated id keeps its place in the dict but takes the later value.
   */
  lemma FirstCameraOfFile(cs: seq<Camera>)
    requires |cs| > 0 && IsU64(|cs|) && forall i :: 0 <= i < |cs| ==> CameraWellFormed(cs[i])
    ensures ReadCameras(EncodeFile(cs, EncodeCamera)).Ok?
    ensures var last := LastWithId(cs, cs[0].id);
      0 <= last && CameraParamsOf(ReadCameras(EncodeFile(cs, EncodeCamera)).value) == Some(IntrinsicsOf(cs[last]))
  {
    CamerasFileRoundTrip(cs);
    var last := LastWithId(cs, cs[0].id);
    FromRecordsFirstKey(cs, CameraId);
    FromRecordsLastWins(cs, CameraId, last);
  }
}

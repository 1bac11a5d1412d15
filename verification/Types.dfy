/** Data types, channel groups and frames that every other module shares. */
module Types {

  datatype Option<+T> = None | Some(value: T)

  newtype byte = x: int | 0 <= x < 256

  type Int64 = i: int | -0x8000_0000_0000_0000 <= i < 0x8000_0000_0000_0000

  datatype DataType =
    | StereoImage | DepthMap | PointCloud | Imu | DisparityMap
    | ConfidenceMap | Temperature | Magnetometer | Barometer

  datatype Group = Visual2D | Visual3D | SensorData

  /** The order in which the capture loop and the pipeline visit the groups. */
  const GROUPS: seq<Group> := [Visual2D, Visual3D, SensorData]

  function GroupOf(t: DataType): Group {
    match t
    case StereoImage | DepthMap => Visual2D
    case PointCloud | DisparityMap | ConfidenceMap => Visual3D
    case Imu | Temperature | Magnetometer | Barometer => SensorData
  }

  function NameOf(t: DataType): string {
    match t
    case StereoImage => "stereo_image"
    case DepthMap => "depth_map"
    case PointCloud => "point_cloud"
    case Imu => "imu"
    case DisparityMap => "disparity_map"
    case ConfidenceMap => "confidence_map"
    case Temperature => "temperature"
    case Magnetometer => "magnetometer"
    case Barometer => "barometer"
  }

  /** data_type_from_string: exact names only. */
  function TypeNamed(s: string): (r: Option<DataType>)
    ensures r.Some? ==> NameOf(r.value) == s
    ensures r.None? ==> forall t :: NameOf(t) != s
  {
    if s == "stereo_image" then Some(StereoImage)
    else if s == "depth_map" then Some(DepthMap)
    else if s == "point_cloud" then Some(PointCloud)
    else if s == "imu" then Some(Imu)
    else if s == "disparity_map" then Some(DisparityMap)
    else if s == "confidence_map" then Some(ConfidenceMap)
    else if s == "temperature" then Some(Temperature)
    else if s == "magnetometer" then Some(Magnetometer)
    else if s == "barometer" then Some(Barometer)
    else None
  }

  lemma NamesAreDistinct(t: DataType)
    ensures TypeNamed(NameOf(t)) == Some(t)
  {
    match t case _ =>
  }

  const ALL_TYPES: seq<DataType> :=
    [StereoImage, DepthMap, PointCloud, Imu, DisparityMap, ConfidenceMap, Temperature, Magnetometer, Barometer]

  /** The types of a group, in table order. */
  function Members(g: Group): seq<DataType> {
    match g
    case Visual2D => [StereoImage, DepthMap]
    case Visual3D => [PointCloud, DisparityMap, ConfidenceMap]
    case SensorData => [Imu, Temperature, Magnetometer, Barometer]
  }

  lemma InItsGroup(t: DataType)
    ensures t in Members(GroupOf(t))
  {
  }

  /** One value for each group. */
  datatype PerGroup<+T> = PerGroup(visual2D: T, visual3D: T, sensorData: T) {
    function At(g: Group): T {
      match g
      case Visual2D => visual2D
      case Visual3D => visual3D
      case SensorData => sensorData
    }
  }

  function Put<T>(p: PerGroup<T>, g: Group, v: T): (q: PerGroup<T>)
    ensures q.At(g) == v && forall o :: o != g ==> q.At(o) == p.At(o)
  {
    match g
    case Visual2D => p.(visual2D := v)
    case Visual3D => p.(visual3D := v)
    case SensorData => p.(sensorData := v)
  }

  /** One payload of a frame. The image fields are zero or empty for other payloads. */
  datatype Bundle = Bundle(
    dataType: DataType, partId: string, data: seq<byte>, format: string,
    isEncoded: bool, channels: int, code: string,
    rightChannels: int, rightCode: string, width: int, height: int)

  datatype Frame = Frame(
    group: Group, tsSec: int, tsNsec: int, pairId: nat, frameIndex: nat,
    pubId: string, bundles: seq<Bundle>)

  /** The frames of one group, in order. */
  function OfGroup(fs: seq<Frame>, g: Group): seq<Frame> {
    if fs == [] then []
    else OfGroup(fs[..|fs| - 1], g) + (if fs[|fs| - 1].group == g then [fs[|fs| - 1]] else [])
  }

  lemma OfGroupAppend(fs: seq<Frame>, f: Frame, g: Group)
    ensures OfGroup(fs + [f], g) == OfGroup(fs, g) + (if f.group == g then [f] else [])
  {
    assert (fs + [f])[..|fs|] == fs;
  }
}

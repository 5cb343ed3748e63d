/**
 * The typed packages of a recording (the `datLogger::CommonPkg` values the
 * replayer keeps in `pkgs_`), modelled as values: a kind, the content size
 * from the package header, and a payload interpreted according to the kind.
 * Doubles stay opaque (their eight bytes); times are integer ticks.
 */
module Packages {
  import opened Wrappers

  type byte = b: int | 0 <= b < 256

  /** The package kinds handled by `Replay::RecordPkgs`, in the order its switch lists them. */
  datatype Kind =
    | Header | ModelId | TimeSeries | ObjId | Positions | Speed | ObjType | ObjCategory | CtrlType
    | WheelAngle | WheelRot | BoundingBox | ScaleMode | VisibilityMask | Name | RoadId | LaneId
    | PosOffset | PosT | PosS | ObjDeleted | ObjAdded | EndOfScenario

  /** An IEEE-754 double kept as its eight bytes; no arithmetic is done on it. */
  datatype Real64 = Real64(bits: seq<byte>)

  /** The double 0.0: all eight bytes zero. */
  const Zero: Real64 := Real64([0, 0, 0, 0, 0, 0, 0, 0])

  datatype Payload =
    | HeaderInfo(version: int, odrFilename: seq<byte>, modelFilename: seq<byte>)
    | TimeValue(ticks: int)
    | IntValue(value: int)
    | RealValue(double: Real64)
    | Pose(x: Real64, y: Real64, z: Real64, h: Real64, r: Real64, p: Real64)
    | Box(cx: Real64, cy: Real64, cz: Real64, width: Real64, length: Real64, height: Real64)
    | Text(chars: seq<byte>)
    | NoContent
      /** the bytes of a package whose content size does not fit its field, or that the end of the file cut short */
    | Malformed(raw: seq<byte>)

  datatype Package = Package(kind: Kind, contentSize: nat, payload: Payload)

  /** Kinds whose content is one 32-bit integer. */
  predicate IsIntKind(k: Kind) {
    k in {ModelId, ObjId, ObjType, ObjCategory, CtrlType, ScaleMode, VisibilityMask, RoadId, LaneId}
  }

  /** Kinds whose content is one double other than the time marker. */
  predicate IsRealKind(k: Kind) {
    k in {Speed, WheelAngle, WheelRot, PosOffset, PosT, PosS}
  }

  /** Kinds that carry no content at all. */
  predicate IsMarker(k: Kind) {
    k in {ObjDeleted, ObjAdded, EndOfScenario}
  }

  predicate IsTime(p: Package) { p.kind == TimeSeries }

  predicate IsObjId(p: Package) { p.kind == ObjId }

  /** A time marker or an object-id marker: the packages that end an entity block. */
  predicate IsBoundary(p: Package) { p.kind == TimeSeries || p.kind == ObjId }

  /** The time a time marker carries; a malformed one reads as tick 0. */
  function TimeOf(p: Package): int {
    if p.payload.TimeValue? then p.payload.ticks else 0
  }

  /** The integer an integer-valued package carries (an object id, a road id, ...); a malformed one reads as 0. */
  function IntOf(p: Package): int {
    if p.payload.IntValue? then p.payload.value else 0
  }

  /** The double a double-valued package carries; a malformed one reads as 0.0. */
  function RealOf(p: Package): Real64 {
    if p.payload.RealValue? then p.payload.double else Zero
  }

  /** `datLogger::Pos`: the six doubles of a position package. */
  datatype Pos = Pos(x: Real64, y: Real64, z: Real64, h: Real64, r: Real64, p: Real64)

  /** `datLogger::BoundingBox`: centre and dimensions. */
  datatype BBox = BBox(x: Real64, y: Real64, z: Real64, width: Real64, length: Real64, height: Real64)

  /** The pose a position package carries; a malformed one reads as all zeros. */
  function PosOf(p: Package): Pos {
    match p.payload
    case Pose(x, y, z, h, r, pp) => Pos(x, y, z, h, r, pp)
    case _ => Pos(Zero, Zero, Zero, Zero, Zero, Zero)
  }

  /** The box a bounding-box package carries; a malformed one reads as all zeros. */
  function BoxOf(p: Package): BBox {
    match p.payload
    case Box(x, y, z, w, l, h) => BBox(x, y, z, w, l, h)
    case _ => BBox(Zero, Zero, Zero, Zero, Zero, Zero)
  }

  /** The characters a name package carries; a malformed one reads as the empty name. */
  function TextOf(p: Package): seq<byte> {
    if p.payload.Text? then p.payload.chars else []
  }

  /**
   * The bytes before the first 0 byte: what a C string held in these bytes
   * reads as. Without a 0 byte the whole sequence is taken.
   */
  function UpToNul(s: seq<byte>): (r: seq<byte>)
    ensures r <= s
    ensures forall i :: 0 <= i < |r| ==> r[i] != 0
    ensures |r| < |s| ==> s[|r|] == 0
  {
    if |s| == 0 || s[0] == 0 then [] else [s[0]] + UpToNul(s[1..])
  }

  /** The format version a header package carries, if it is a well-formed header. */
  function VersionOf(p: Package): Option<int> {
    if p.kind == Header && p.payload.HeaderInfo? then Some(p.payload.version) else None
  }
}

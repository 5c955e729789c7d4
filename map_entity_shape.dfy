/** How each map entity is drawn: robot, charger and go-to target as
    centred images, paths as lines, walls and areas as open or closed
    polylines, anything else not at all. */
module MapEntityShape {
  import opened Wrappers
  import opened MapModel
  import opened Seqs

  datatype Image = RobotImage | ChargerImage

  /** The theme style a line takes its stroke from. */
  datatype LineStyle = PathStyle | NoGoStyle | NoMopStyle | ActiveStyle

  datatype Shape =
    | ImageShape(image: Image, x: Option<real>, y: Option<real>, minimumScale: real, rotation: Option<real>)
    | LineShape(points: seq<real>, strokeWidth: real, style: LineStyle, dash: Option<(real, real)>, closed: bool)

  /** `commonImageProps(image)`: placed at the first point, never drawn
      smaller than its natural size, turned by the entity's angle. */
  function ImageAt(image: Image, e: MapEntity): Shape
  {
    ImageShape(image, At(e.points, 0), At(e.points, 1), 1.0, e.angle)
  }

  /** `commonLineProps` plus style, dash and closing. */
  function LineOf(e: MapEntity, pixelSize: real, style: LineStyle, dash: Option<(real, real)>, closed: bool): Shape
  {
    LineShape(e.points, pixelSize, style, dash, closed)
  }

  function EntityShape(e: MapEntity, pixelSize: real): (r: Option<Shape>)
    ensures r.None? <==> e.entityType.UnknownEntity?
    ensures r.Some? && r.value.ImageShape? <==>
              e.entityType in {RobotPosition, ChargerLocation, GoToTarget}
    ensures r.Some? && r.value.ImageShape? ==>
              r.value.x == At(e.points, 0) && r.value.y == At(e.points, 1) &&
              r.value.minimumScale == 1.0 && r.value.rotation == e.angle &&
              (r.value.image == RobotImage <==> e.entityType == RobotPosition)
    ensures r.Some? && r.value.LineShape? ==>
              r.value.points == e.points && r.value.strokeWidth == pixelSize &&
              (r.value.closed <==> e.entityType in {NoGoArea, NoMopArea, ActiveZone}) &&
              (r.value.dash.Some? <==> e.entityType == PredictedPath) &&
              (r.value.style == PathStyle <==> e.entityType in {Path, PredictedPath}) &&
              (r.value.style == NoGoStyle <==> e.entityType in {VirtualWall, NoGoArea}) &&
              (r.value.style == NoMopStyle <==> e.entityType == NoMopArea) &&
              (r.value.style == ActiveStyle <==> e.entityType == ActiveZone)
    ensures e.entityType == PredictedPath ==> r == Some(LineShape(e.points, pixelSize, PathStyle, Some((5.0 * pixelSize, 2.0 * pixelSize)), false))
  {
    match e.entityType
    case RobotPosition => Some(ImageAt(RobotImage, e))
    case ChargerLocation => Some(ImageAt(ChargerImage, e))
    case GoToTarget => Some(ImageAt(ChargerImage, e))
    case Path => Some(LineOf(e, pixelSize, PathStyle, None, false))
    case PredictedPath => Some(LineOf(e, pixelSize, PathStyle, Some((pixelSize * 5.0, pixelSize * 2.0)), false))
    case VirtualWall => Some(LineOf(e, pixelSize, NoGoStyle, None, false))
    case NoGoArea => Some(LineOf(e, pixelSize, NoGoStyle, None, true))
    case NoMopArea => Some(LineOf(e, pixelSize, NoMopStyle, None, true))
    case ActiveZone => Some(LineOf(e, pixelSize, ActiveStyle, None, true))
    case UnknownEntity(_) => None
  }
}

/** The go-to-location layer: a tap on the floor plan places the target
    point, and the overlay sends the robot there. */
module GoLayer {
  import opened Wrappers
  import opened Geometry
  import opened MapModel
  import opened Seqs
  import opened RobotModel

  predicate NotWall(l: MapLayer) { l.layerType != Wall }

  /** The "outside map" test of `handleClick`: some non-wall layer has a
      pixel at distance 0 from the tapped cell. */
  function OnMap(data: MapData, cx: int, cy: int): (r: bool)
    ensures r <==> exists l :: l in data.layers && l.layerType != Wall && HasPixel(l.pixels, cx, cy)
  {
    forall l | l in data.layers ensures SomePixelAtZero(l.pixels, cx, cy) <==> HasPixel(l.pixels, cx, cy) {
      SomePixelAtZeroIff(l.pixels, cx, cy);
    }
    Any((l: MapLayer) => SomePixelAtZero(l.pixels, cx, cy), Filter(NotWall, data.layers))
  }

  class GoLayerState {
    var goToPoint: Option<Vec>

    constructor ()
      ensures goToPoint == None
    {
      goToPoint := None;
    }

    method HandleClear()
      modifies this
      ensures goToPoint == None
    {
      goToPoint := None;
    }

    /** The exact, unrounded tap becomes the target only when its cell is a
        pixel of a floor or segment layer; a tap on a wall or off the map
        changes nothing. */
    method HandleClick(data: MapData, position: Vec)
      requires data.pixelSize > 0.0
      modifies this
      ensures var cx, cy := CellOf(position.x, data.pixelSize), CellOf(position.y, data.pixelSize);
        && ((exists l :: l in data.layers && l.layerType != Wall && HasPixel(l.pixels, cx, cy)) ==> goToPoint == Some(position))
        && (!(exists l :: l in data.layers && l.layerType != Wall && HasPixel(l.pixels, cx, cy)) ==> goToPoint == old(goToPoint))
    {
      var cx, cy := CellOf(position.x, data.pixelSize), CellOf(position.y, data.pixelSize);
      if !OnMap(data, cx, cy) {
        return;
      }
      goToPoint := Some(position);
    }
  }

  /** The overlay's Go button: the point it sends, if pressing it sends
      anything. */
  function GoRequest(goToPoint: Option<Vec>, status: Option<StatusValue>): (r: Option<Vec>)
    ensures r.Some? <==> goToPoint.Some? && (status == Some(Idle) || status == Some(Docked))
    ensures r.Some? ==> r == goToPoint
  {
    if goToPoint.None? || !CanStart(status) then None else goToPoint
  }

  /** `disabled={goToPoint === undefined || isLoading || !canGo}`. */
  function GoDisabled(goToPoint: Option<Vec>, isLoading: bool, status: Option<StatusValue>): (r: bool)
    ensures r <==> isLoading || GoRequest(goToPoint, status).None?
  {
    goToPoint.None? || isLoading || !CanStart(status)
  }

  /** An enabled button always sends, and a button that sends is enabled
      unless a command is already in flight. */
  lemma GoEnabledIffSends(goToPoint: Option<Vec>, isLoading: bool, status: Option<StatusValue>)
    ensures !GoDisabled(goToPoint, isLoading, status) <==> !isLoading && GoRequest(goToPoint, status).Some?
  {
  }
}

/** The map-controls session state: the available modes, the selected mode,
    the go-to point and the selected segments, with the handlers that
    overwrite them. */
module RobotControlMapProvider {
  import opened Wrappers
  import opened Geometry
  import opened Interaction

  class RobotMapLayers {
    var goToLocation: bool
    var mapSegmentation: bool
    var zoneCleaning: bool
    var selectedLayer: Option<Mode>
    var goToPoint: Option<Vec>
    var selectedSegments: seq<string>

    /** The memoised `layers` list. */
    function Layers(): seq<Mode>
      reads this
    {
      AvailableModes(goToLocation, mapSegmentation, zoneCleaning)
    }

    /** Mounting: empty state, then the layer effect runs once and selects
        the first available mode. */
    constructor (goToLocation: bool, mapSegmentation: bool, zoneCleaning: bool)
      ensures Layers() == AvailableModes(goToLocation, mapSegmentation, zoneCleaning)
      ensures selectedLayer == NextSelectedLayer(None, Layers())
      ensures goToPoint == None && selectedSegments == []
    {
      this.goToLocation := goToLocation;
      this.mapSegmentation := mapSegmentation;
      this.zoneCleaning := zoneCleaning;
      goToPoint := None;
      selectedSegments := [];
      selectedLayer := NextSelectedLayer(None, AvailableModes(goToLocation, mapSegmentation, zoneCleaning));
    }

    /** `handleMapInteraction`: in go mode a tap moves the go-to point, or
        clears it when within distance 30 of it; in segments mode a defined
        segment id is toggled; zones mode and no mode change nothing. Go
        never touches the segments and segments never touch the point. */
    method HandleMapInteraction(position: Vec, segmentId: Option<string>)
      modifies this
      ensures selectedLayer == old(selectedLayer) && Layers() == old(Layers())
      ensures selectedLayer == Some(GoMode) ==>
                goToPoint == NextGoPointNear(old(goToPoint), position) &&
                selectedSegments == old(selectedSegments)
      ensures selectedLayer == Some(SegmentsMode) && segmentId.Some? ==>
                selectedSegments == ToggleSegment(old(selectedSegments), segmentId.value) &&
                goToPoint == old(goToPoint)
      ensures selectedLayer == Some(SegmentsMode) && segmentId.None? ==>
                selectedSegments == old(selectedSegments) && goToPoint == old(goToPoint)
      ensures selectedLayer == Some(ZonesMode) || selectedLayer == None ==>
                selectedSegments == old(selectedSegments) && goToPoint == old(goToPoint)
    {
      match selectedLayer {
        case Some(GoMode) =>
          goToPoint := NextGoPointNear(goToPoint, position);
        case Some(SegmentsMode) =>
          if segmentId.None? {
            return;
          }
          selectedSegments := ToggleSegment(selectedSegments, segmentId.value);
        case _ =>
      }
    }

    /** `handleClear`: both pieces of selection state are emptied, whatever
        the mode. */
    method HandleClear()
      modifies this
      ensures goToPoint == None && selectedSegments == []
      ensures selectedLayer == old(selectedLayer) && Layers() == old(Layers())
    {
      goToPoint := None;
      selectedSegments := [];
    }

    /** `handleSelectLayer`: select the mode, then clear. */
    method HandleSelectLayer(layer: Mode)
      modifies this
      ensures selectedLayer == Some(layer)
      ensures goToPoint == None && selectedSegments == []
      ensures Layers() == old(Layers())
    {
      selectedLayer := Some(layer);
      HandleClear();
    }

    /** The capabilities changed. When the available list changes, the layer
        effect runs: an undefined mode becomes the first available one and a
        defined mode becomes undefined. */
    method SetCapabilities(goToLocation: bool, mapSegmentation: bool, zoneCleaning: bool)
      modifies this
      ensures Layers() == AvailableModes(goToLocation, mapSegmentation, zoneCleaning)
      ensures Layers() != old(Layers()) ==> selectedLayer == NextSelectedLayer(old(selectedLayer), Layers())
      ensures Layers() == old(Layers()) ==> selectedLayer == old(selectedLayer)
      ensures goToPoint == old(goToPoint) && selectedSegments == old(selectedSegments)
    {
      var before := Layers();
      this.goToLocation := goToLocation;
      this.mapSegmentation := mapSegmentation;
      this.zoneCleaning := zoneCleaning;
      if Layers() != before {
        selectedLayer := NextSelectedLayer(selectedLayer, Layers());
      }
    }
  }
}

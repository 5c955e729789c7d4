/** The earlier map-context variant of the session state: the go-to point
    toggles on exact equality and the segment toggle receives the tapped
    layer itself. */
module MapContextProvider {
  import opened Wrappers
  import opened Geometry
  import opened MapModel
  import opened Interaction

  class MapContext {
    var goToLocation: bool
    var mapSegmentation: bool
    var zoneCleaning: bool
    var selectedLayer: Option<Mode>
    var goToPoint: Option<Vec>
    var selectedSegments: seq<string>

    function Layers(): seq<Mode>
      reads this
    {
      AvailableModes(goToLocation, mapSegmentation, zoneCleaning)
    }

    constructor (goToLocation: bool, mapSegmentation: bool, zoneCleaning: bool)
      ensures Layers() == AvailableModes(goToLocation, mapSegmentation, zoneCleaning)
      ensures selectedLayer == NextSelectedLayer(None, Layers())
      ensures goToPoint == None && selectedSegments == []
    {
      this.goToLocation := goToLocation;
      this.mapSegmentation := mapSegmentation;
      this.zoneCleaning := zoneCleaning;
      goToPoint := None;
      selectedSegments := [];
      selectedLayer := NextSelectedLayer(None, AvailableModes(goToLocation, mapSegmentation, zoneCleaning));
    }

    /** `handleMapInteraction(layer, position)`: in go mode tapping exactly the
        stored point clears it and any other tap replaces it; in segments
        mode only a segment layer with an id toggles that id. */
    method HandleMapInteraction(layer: MapLayer, position: Vec)
      modifies this
      ensures selectedLayer == old(selectedLayer) && Layers() == old(Layers())
      ensures selectedLayer == Some(GoMode) ==>
                goToPoint == NextGoPointExact(old(goToPoint), position) &&
                selectedSegments == old(selectedSegments)
      ensures selectedLayer == Some(SegmentsMode) ==> goToPoint == old(goToPoint)
      ensures selectedLayer == Some(SegmentsMode) && layer.layerType == Segment && layer.meta.segmentId.Some? ==>
                selectedSegments == ToggleSegment(old(selectedSegments), layer.meta.segmentId.value)
      ensures selectedLayer == Some(SegmentsMode) && (layer.layerType != Segment || layer.meta.segmentId.None?) ==>
                selectedSegments == old(selectedSegments)
      ensures selectedLayer == Some(ZonesMode) || selectedLayer == None ==>
                selectedSegments == old(selectedSegments) && goToPoint == old(goToPoint)
    {
      match selectedLayer {
        case Some(GoMode) =>
          goToPoint := NextGoPointExact(goToPoint, position);
        case Some(SegmentsMode) =>
          var id := layer.meta.segmentId;
          if layer.layerType != Segment || id.None? {
            return;
          }
          selectedSegments := ToggleSegment(selectedSegments, id.value);
        case _ =>
      }
    }

    method HandleClear()
      modifies this
      ensures goToPoint == None && selectedSegments == []
      ensures selectedLayer == old(selectedLayer) && Layers() == old(Layers())
    {
      goToPoint := None;
      selectedSegments := [];
    }

    method HandleSelectLayer(layer: Mode)
      modifies this
      ensures selectedLayer == Some(layer)
      ensures goToPoint == None && selectedSegments == []
      ensures Layers() == old(Layers())
    {
      selectedLayer := Some(layer);
      HandleClear();
    }

    method SetCapabilities(goToLocation: bool, mapSegmentation: bool, zoneCleaning: bool)
      modifies this
      ensures Layers() == AvailableModes(goToLocation, mapSegmentation, zoneCleaning)
      ensures Layers() != old(Layers()) ==> selectedLayer == NextSelectedLayer(old(selectedLayer), Layers())
      ensures Layers() == old(Layers()) ==> selectedLayer == old(selectedLayer)
      ensures goToPoint == old(goToPoint) && selectedSegments == old(selectedSegments)
    {
      var before := Layers();
      this.goToLocation := goToLocation;
      this.mapSegmentation := mapSegmentation;
      this.zoneCleaning := zoneCleaning;
      if Layers() != before {
        selectedLayer := NextSelectedLayer(selectedLayer, Layers());
      }
    }
  }
}

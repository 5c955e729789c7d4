/** The segment-cleaning layer: taps toggle segments in a local selection,
    unselected segments are drawn desaturated, and the overlay starts a
    segment clean. */
module SegmentsLayer {
  import opened Wrappers
  import opened Geometry
  import opened MapModel
  import opened Seqs
  import opened Interaction
  import opened RobotModel

  predicate IsSegment(l: MapLayer) { l.layerType == Segment }

  /** The layer `handleClick` picks: the first segment layer one of whose
      pixels is at distance 0 from the tapped cell. Unlike the controls-page
      map, the layer's box is not consulted. */
  function TappedSegment(data: MapData, position: Vec): (r: Option<MapLayer>)
    requires data.pixelSize > 0.0
    ensures var cx, cy := CellOf(position.x, data.pixelSize), CellOf(position.y, data.pixelSize);
      && (r.None? <==> forall l :: l in data.layers ==> !(l.layerType == Segment && HasPixel(l.pixels, cx, cy)))
      && (r.Some? ==> exists i :: 0 <= i < |data.layers| && data.layers[i] == r.value &&
                        r.value.layerType == Segment && HasPixel(r.value.pixels, cx, cy) &&
                        forall j :: 0 <= j < i ==> !(data.layers[j].layerType == Segment && HasPixel(data.layers[j].pixels, cx, cy)))
  {
    var cx, cy := CellOf(position.x, data.pixelSize), CellOf(position.y, data.pixelSize);
    var atZero := (l: MapLayer) => SomePixelAtZero(l.pixels, cx, cy);
    var both := (l: MapLayer) => l.layerType == Segment && HasPixel(l.pixels, cx, cy);
    forall l: MapLayer ensures both(l) == (IsSegment(l) && atZero(l)) {
      SomePixelAtZeroIff(l.pixels, cx, cy);
    }
    FindFilter(atZero, IsSegment, both, data.layers);
    Find(atZero, Filter(IsSegment, data.layers))
  }

  class SegmentsLayerState {
    var selectedSegments: seq<string>

    constructor ()
      ensures selectedSegments == []
    {
      selectedSegments := [];
    }

    method HandleClear()
      modifies this
      ensures selectedSegments == []
    {
      selectedSegments := [];
    }

    /** A tap on a segment with an id toggles that id; any other tap leaves
        the selection as it was. */
    method HandleClick(data: MapData, position: Vec)
      requires data.pixelSize > 0.0
      modifies this
      ensures var hit := TappedSegment(data, position);
        && (hit.None? || hit.value.meta.segmentId.None? ==> selectedSegments == old(selectedSegments))
        && (hit.Some? && hit.value.meta.segmentId.Some? ==>
              selectedSegments == ToggleSegment(old(selectedSegments), hit.value.meta.segmentId.value))
    {
      var segment := TappedSegment(data, position);
      if segment.None? || segment.value.meta.segmentId.None? {
        return;
      }
      selectedSegments := ToggleSegment(selectedSegments, segment.value.meta.segmentId.value);
    }
  }

  /** `coloredLayers`: a layer whose id is selected keeps its colour, every
      other layer, floor and walls included, is desaturated. */
  function ColoredLayers(layers: seq<RenderLayer>, selected: seq<string>): (r: seq<RenderLayer>)
    ensures |r| == |layers|
    ensures forall i :: 0 <= i < |r| ==>
              r[i].id == layers[i].id && r[i].pixels == layers[i].pixels && r[i].box == layers[i].box &&
              r[i].pixelSize == layers[i].pixelSize && r[i].paint.color == layers[i].paint.color
    ensures forall i :: 0 <= i < |r| ==> (layers[i].id in selected ==> r[i] == layers[i])
    ensures forall i :: 0 <= i < |r| ==> (layers[i].id !in selected ==> r[i].paint.Desaturated?)
  {
    seq(|layers|, i requires 0 <= i < |layers| =>
      if layers[i].id in selected then layers[i]
      else layers[i].(paint := Desaturated(layers[i].paint.color)))
  }

  /** The overlay's clean button: the ids it sends, if pressing it sends
      anything. */
  function CleanRequest(selected: seq<string>, status: Option<StatusValue>): (r: Option<seq<string>>)
    ensures r.Some? <==> |selected| > 0 && (status == Some(Idle) || status == Some(Docked))
    ensures r.Some? ==> r.value == selected
  {
    if |selected| == 0 || !CanStart(status) then None else Some(selected)
  }
}

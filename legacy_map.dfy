/** The earlier map renderer: colours layers by type name, frames all
    layers (empty ones included) and fits the frame to the container's
    width only. */
module LegacyMap {
  import opened Wrappers
  import opened Geometry
  import opened MapModel
  import MapView

  /** `typeToColorMap[type] ?? 'red'`. */
  function FillColor(layerType: string): (c: string)
    ensures layerType == "wall" ==> c == "#000000"
    ensures layerType == "floor" ==> c == "#FAFAFA"
    ensures layerType == "segment" ==> c == "#00D2FA"
    ensures layerType !in {"wall", "floor", "segment"} ==> c == "red"
  {
    if layerType == "wall" then "#000000"
    else if layerType == "floor" then "#FAFAFA"
    else if layerType == "segment" then "#00D2FA"
    else "red"
  }

  datatype LegacyStage = LegacyStage(extent: Extent, width: real, height: real, scale: real, offset: Vec)

  /** The stage of the earlier renderer for a container `containerWidth`
      wide: undefined without layers. */
  function Layout(layers: seq<MapLayer>, pixelSize: real, containerWidth: real): (r: Option<LegacyStage>)
    requires pixelSize > 0.0 && forall l :: l in layers ==> WellFormed(l)
    ensures r.None? <==> |layers| == 0
    ensures r.Some? ==> r.value.extent == BoundingBox(layers).value
    ensures r.Some? ==> r.value.offset == MapView.StageOffset(r.value.extent, pixelSize)
    ensures r.Some? ==> r.value.width == containerWidth
    ensures r.Some? ==> var size := MapView.StageSize(r.value.extent, pixelSize);
              r.value.scale * size.x == containerWidth && r.value.height == size.y * r.value.scale
  {
    match BoundingBox(layers)
    case None => None
    case Some(e) =>
      MapView.ExtentOrdered(layers);
      MapView.StageSizePositive(e, pixelSize);
      var size := MapView.StageSize(e, pixelSize);
      var scale := containerWidth / size.x;
      Some(LegacyStage(e, size.x * scale, size.y * scale, scale, MapView.StageOffset(e, pixelSize)))
  }

  /** Unlike the current renderer, a layer without area still widens the
      frame. */
  lemma EmptyLayersAreFramed(layers: seq<MapLayer>, pixelSize: real, containerWidth: real, l: MapLayer)
    requires pixelSize > 0.0 && forall l :: l in layers ==> WellFormed(l)
    requires l in layers
    ensures Layout(layers, pixelSize, containerWidth).Some?
    ensures var e := Layout(layers, pixelSize, containerWidth).value.extent;
      e.minX <= l.dimX.min && l.dimX.max <= e.maxX && e.minY <= l.dimY.min && l.dimY.max <= e.maxY
  {
  }
}

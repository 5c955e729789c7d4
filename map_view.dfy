/** The map renderer: drops empty layers, frames the rest with a padding of
    ten cells, fits the frame into the container and colours each layer. */
module MapView {
  import opened Wrappers
  import opened Geometry
  import opened MapModel
  import opened Seqs

  const MapPadding := 10

  predicate HasArea(l: MapLayer) { l.meta.area > 0 }

  /** Only layers with a positive area are bounded, coloured and drawn. */
  function DrawnLayers(layers: seq<MapLayer>): (r: seq<MapLayer>)
    ensures forall l :: l in r <==> l in layers && l.meta.area > 0
    ensures |r| <= |layers|
  {
    Filter(HasArea, layers)
  }

  /** `(max - min + MapPadding * 2) * pixelSize` on each axis: from the
      offset, the stage reaches MapPadding cells past the largest cell. */
  function StageSize(e: Extent, pixelSize: real): (r: Vec)
    ensures StageOffset(e, pixelSize).x + r.x == (e.maxX + MapPadding) as real * pixelSize
    ensures StageOffset(e, pixelSize).y + r.y == (e.maxY + MapPadding) as real * pixelSize
  {
    Vec((e.maxX - e.minX + 2 * MapPadding) as real * pixelSize, (e.maxY - e.minY + 2 * MapPadding) as real * pixelSize)
  }

  /** `(min - MapPadding) * pixelSize` on each axis: the stage starts before
      the smallest cell. */
  function StageOffset(e: Extent, pixelSize: real): (r: Vec)
    ensures pixelSize > 0.0 ==> r.x < e.minX as real * pixelSize && r.y < e.minY as real * pixelSize
  {
    Vec((e.minX - MapPadding) as real * pixelSize, (e.minY - MapPadding) as real * pixelSize)
  }

  /** The smaller of the two container-to-stage ratios. */
  function StageScale(container: Vec, stage: Vec): (r: real)
    requires stage.x > 0.0 && stage.y > 0.0
    ensures r <= container.x / stage.x && r <= container.y / stage.y
    ensures r == container.x / stage.x || r == container.y / stage.y
    ensures r * stage.x <= container.x && r * stage.y <= container.y
  {
    var sw, sh := container.x / stage.x, container.y / stage.y;
    var r := if sw < sh then sw else sh;
    assert r * stage.x <= sw * stage.x by { MulMono(r, sw, stage.x); }
    assert r * stage.y <= sh * stage.y by { MulMono(r, sh, stage.y); }
    r
  }

  /** Scale and offset of the stage, undefined when no layer has an area. */
  datatype Layout = Layout(extent: Extent, stageSize: Vec, offset: Vec, scale: real)

  function MapLayout(data: MapData, container: Vec): (r: Option<Layout>)
    requires data.pixelSize > 0.0 && forall l :: l in DrawnLayers(data.layers) ==> WellFormed(l)
    ensures r.None? <==> forall l :: l in data.layers ==> l.meta.area <= 0
  {
    var drawn := DrawnLayers(data.layers);
    match BoundingBox(drawn)
    case None => None
    case Some(e) =>
      ExtentOrdered(drawn);
      var size := StageSize(e, data.pixelSize);
      StageSizePositive(e, data.pixelSize);
      Some(Layout(e, size, StageOffset(e, data.pixelSize), StageScale(container, size)))
  }

  /** The frame of well-formed layers is itself well-formed. */
  lemma ExtentOrdered(layers: seq<MapLayer>)
    requires |layers| > 0 && forall l :: l in layers ==> WellFormed(l)
    ensures var e := BoundingBox(layers).value; e.minX <= e.maxX && e.minY <= e.maxY
  {
    var e := BoundingBox(layers).value;
    assert layers[0] in layers;
    assert e.minX <= layers[0].dimX.min <= layers[0].dimX.max <= e.maxX;
    assert e.minY <= layers[0].dimY.min <= layers[0].dimY.max <= e.maxY;
  }

  lemma StageSizePositive(e: Extent, pixelSize: real)
    requires e.minX <= e.maxX && e.minY <= e.maxY && pixelSize > 0.0
    ensures StageSize(e, pixelSize).x > 0.0 && StageSize(e, pixelSize).y > 0.0
  {
    MulMono(0.0, (e.maxX - e.minX + 2 * MapPadding) as real, pixelSize);
  }

  /** On one axis: cell c of a frame spanning [min, max] lies at least
      MapPadding cells from either edge of the stage. */
  lemma AxisPadding(min: int, max: int, c: int, pixelSize: real, offset: real, size: real)
    requires min <= c <= max && pixelSize > 0.0
    requires offset == (min - MapPadding) as real * pixelSize
    requires size == (max - min + 2 * MapPadding) as real * pixelSize
    ensures (MapPadding as real) * pixelSize <= c as real * pixelSize - offset
    ensures c as real * pixelSize - offset <= size - (MapPadding as real) * pixelSize
  {
    assert c as real * pixelSize - offset == (c - min + MapPadding) as real * pixelSize;
    assert size - (MapPadding as real) * pixelSize == (max - min + MapPadding) as real * pixelSize;
    MulMono(MapPadding as real, (c - min + MapPadding) as real, pixelSize);
    MulMono((c - min + MapPadding) as real, (max - min + MapPadding) as real, pixelSize);
  }

  /** Every cell of a frame lies at least MapPadding cells inside the
      stage on each side. */
  lemma FramePadding(e: Extent, pixelSize: real, cx: int, cy: int)
    requires e.minX <= cx <= e.maxX && e.minY <= cy <= e.maxY && pixelSize > 0.0
    ensures var offset, size := StageOffset(e, pixelSize), StageSize(e, pixelSize);
      (MapPadding as real) * pixelSize <= cx as real * pixelSize - offset.x <= size.x - (MapPadding as real) * pixelSize &&
      (MapPadding as real) * pixelSize <= cy as real * pixelSize - offset.y <= size.y - (MapPadding as real) * pixelSize
  {
    var offset, size := StageOffset(e, pixelSize), StageSize(e, pixelSize);
    AxisPadding(e.minX, e.maxX, cx, pixelSize, offset.x, size.x);
    AxisPadding(e.minY, e.maxY, cy, pixelSize, offset.y, size.y);
  }

  /** Every cell of every drawn layer is inside the frame of the layout;
      with `FramePadding`, it is drawn at least MapPadding cells inside the
      stage. */
  lemma DrawnLayerInsideFrame(data: MapData, container: Vec, l: MapLayer, cx: int, cy: int)
    requires data.pixelSize > 0.0 && forall l :: l in DrawnLayers(data.layers) ==> WellFormed(l)
    requires l in data.layers && l.meta.area > 0
    requires l.dimX.min <= cx <= l.dimX.max && l.dimY.min <= cy <= l.dimY.max
    ensures MapLayout(data, container).Some?
    ensures var e := MapLayout(data, container).value.extent;
      e.minX <= cx <= e.maxX && e.minY <= cy <= e.maxY
  {
    assert l in DrawnLayers(data.layers);
  }

  datatype MapColors = MapColors(
    free: string, occupied: string,
    segment1: string, segment2: string, segment3: string, segment4: string,
    segmentFallback: string)

  /** `getColor`: floor is free space, wall is occupied, a segment takes one
      of four colours by the solver's index, and the fallback without an id
      or for an index outside 0..3. */
  function LayerColor(theme: MapColors, solver: string -> int, l: MapLayer): (c: string)
    ensures l.layerType == Floor ==> c == theme.free
    ensures l.layerType == Wall ==> c == theme.occupied
    ensures l.layerType == Segment && (l.meta.segmentId.None? || !(0 <= solver(l.meta.segmentId.value) < 4)) ==>
              c == theme.segmentFallback
    ensures l.layerType == Segment && l.meta.segmentId.Some? && 0 <= solver(l.meta.segmentId.value) < 4 ==>
              c == [theme.segment1, theme.segment2, theme.segment3, theme.segment4][solver(l.meta.segmentId.value)]
  {
    match l.layerType
    case Floor => theme.free
    case Wall => theme.occupied
    case Segment =>
      match l.meta.segmentId
      case None => theme.segmentFallback
      case Some(id) =>
        var palette := [theme.segment1, theme.segment2, theme.segment3, theme.segment4];
        var i := solver(id);
        if 0 <= i < |palette| then palette[i] else theme.segmentFallback
  }

  /** `pixels.map((p) => p * pixelSize)`: grid cells to map pixels. */
  function ScaledPixels(pixels: seq<int>, pixelSize: real): (r: seq<real>)
    ensures |r| == |pixels|
    ensures forall i :: 0 <= i < |r| ==> r[i] == pixels[i] as real * pixelSize
  {
    seq(|pixels|, i requires 0 <= i < |pixels| => pixels[i] as real * pixelSize)
  }

  /** Scaling a pixel to map pixels and taking the cell under it gives the
      pixel back. */
  lemma ScaledPixelCell(pixels: seq<int>, pixelSize: real, i: nat)
    requires pixelSize > 0.0 && i < |pixels|
    ensures CellOf(ScaledPixels(pixels, pixelSize)[i], pixelSize) == pixels[i]
  {
    CellOfIff(ScaledPixels(pixels, pixelSize)[i], pixelSize, pixels[i]);
    assert (pixels[i] + 1) as real * pixelSize == pixels[i] as real * pixelSize + pixelSize;
  }
}

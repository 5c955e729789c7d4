/** The map view of the controls page: the colour of each layer, the render
    layers and labels handed to the map, the go-to marker, and the tap that
    resolves to the segment under the finger. */
module RobotControlMap {
  import opened Wrappers
  import opened Geometry
  import opened MapModel
  import opened Seqs
  import opened Interaction

  datatype MapTheme = MapTheme(floor: string, wall: string, segment: seq<string>)

  /** The segment colour before selection: the solver's palette entry, or
      the last entry when there is no id or the index falls outside. */
  function SegmentBase(palette: seq<string>, solver: string -> int, segmentId: Option<string>): (c: Color)
    ensures segmentId.Some? && 0 <= solver(segmentId.value) < |palette| ==>
              c == Some(palette[solver(segmentId.value)])
    ensures (segmentId.None? || !(0 <= solver(segmentId.value) < |palette|)) ==>
              c == At(palette, |palette| - 1)
  {
    var fallback := At(palette, |palette| - 1);
    match segmentId
    case None => fallback
    case Some(id) =>
      var c := At(palette, solver(id));
      if c.Some? then c else fallback
  }

  /** `getColor(layer)`. */
  function LayerPaint(theme: MapTheme, solver: string -> int, selectedLayer: Option<Mode>,
                      selectedSegments: seq<string>, layer: MapLayer): (p: Paint)
    ensures layer.layerType == Floor ==> p == Plain(Some(theme.floor))
    ensures layer.layerType == Wall ==> p == Plain(Some(theme.wall))
    ensures layer.layerType == Segment ==>
              p.color == SegmentBase(theme.segment, solver, layer.meta.segmentId)
    ensures p.Desaturated? <==>
              layer.layerType == Segment && layer.meta.segmentId.Some? &&
              selectedLayer == Some(SegmentsMode) && layer.meta.segmentId.value !in selectedSegments
  {
    match layer.layerType
    case Floor => Plain(Some(theme.floor))
    case Wall => Plain(Some(theme.wall))
    case Segment =>
      var base := SegmentBase(theme.segment, solver, layer.meta.segmentId);
      match layer.meta.segmentId
      case None => Plain(base)
      case Some(id) =>
        if selectedLayer != Some(SegmentsMode) || id in selectedSegments then Plain(base)
        else Desaturated(base)
  }

  /** In segments mode one tap on a segment flips whether it is drawn
      desaturated. */
  lemma ToggleFlipsDesaturation(theme: MapTheme, solver: string -> int, selected: seq<string>, layer: MapLayer)
    requires layer.layerType == Segment && layer.meta.segmentId.Some?
    ensures LayerPaint(theme, solver, Some(SegmentsMode), ToggleSegment(selected, layer.meta.segmentId.value), layer).Desaturated?
        <==> !LayerPaint(theme, solver, Some(SegmentsMode), selected, layer).Desaturated?
  {
  }

  /** The enumeration value of a layer type. */
  function TypeName(t: LayerType): string
  {
    match t
    case Floor => "floor"
    case Wall => "wall"
    case Segment => "segment"
  }

  /** `{x: [min, max], y: [min, max]}` of a layer, in cells. */
  function LayerBox(layer: MapLayer): Box
  {
    Box(layer.dimX.min as real, layer.dimX.max as real, layer.dimY.min as real, layer.dimY.max as real)
  }

  /** The layer mapping handed to the map: one render layer per input layer,
      in order. */
  function RenderLayers(theme: MapTheme, solver: string -> int, selectedLayer: Option<Mode>,
                        selectedSegments: seq<string>, data: MapData): (r: seq<RenderLayer>)
    ensures |r| == |data.layers|
    ensures forall i :: 0 <= i < |r| ==>
              var l := data.layers[i];
              r[i].id == l.meta.segmentId.GetOr(TypeName(l.layerType)) &&
              r[i].pixels == l.pixels && r[i].pixelSize == data.pixelSize &&
              r[i].box == Box(l.dimX.min as real, l.dimX.max as real, l.dimY.min as real, l.dimY.max as real) &&
              r[i].paint == LayerPaint(theme, solver, selectedLayer, selectedSegments, l)
  {
    seq(|data.layers|, i requires 0 <= i < |data.layers| =>
      var l := data.layers[i];
      RenderLayer(l.meta.segmentId.GetOr(TypeName(l.layerType)), l.pixels, data.pixelSize,
                  LayerBox(l), LayerPaint(theme, solver, selectedLayer, selectedSegments, l)))
  }

  // ---------------------------------------------------------------------
  // Labels
  // ---------------------------------------------------------------------

  datatype Label = Label(text: string, position: Vec, icon: bool)

  predicate IsSegmentLayer(l: MapLayer) { l.layerType == Segment }

  function LabelText(meta: LayerMeta): string
  {
    match meta.name
    case Some(n) => n
    case None => meta.segmentId.GetOr("?")
  }

  /** The label of one segment layer. `closest` stands for `pointClosestTo`,
      which picks a pixel of the layer near its middle. */
  function LabelOf(l: MapLayer, pixelSize: real, closest: (seq<seq<int>>, int, int) -> (int, int)): (r: Label)
    ensures l.meta.name.Some? ==> r.text == l.meta.name.value
    ensures l.meta.name.None? && l.meta.segmentId.Some? ==> r.text == l.meta.segmentId.value
    ensures l.meta.name.None? && l.meta.segmentId.None? ==> r.text == "?"
    ensures r.icon <==> l.meta.active
    ensures var c := closest(PairWiseArray(l.pixels), l.dimX.mid, l.dimY.mid);
            r.position == Vec(c.0 as real * pixelSize, c.1 as real * pixelSize)
  {
    var c := closest(PairWiseArray(l.pixels), l.dimX.mid, l.dimY.mid);
    Label(LabelText(l.meta), Vec(c.0 as real * pixelSize, c.1 as real * pixelSize), l.meta.active)
  }

  /** One label per segment layer, in layer order. */
  function Labels(data: MapData, closest: (seq<seq<int>>, int, int) -> (int, int)): (r: seq<Label>)
    ensures |r| == |Filter(IsSegmentLayer, data.layers)|
    ensures forall i :: 0 <= i < |r| ==> r[i] == LabelOf(Filter(IsSegmentLayer, data.layers)[i], data.pixelSize, closest)
  {
    var segs := Filter(IsSegmentLayer, data.layers);
    seq(|segs|, i requires 0 <= i < |segs| => LabelOf(segs[i], data.pixelSize, closest))
  }

  /** Every segment layer is labelled, and nothing else is. */
  lemma LabelsCoverSegments(data: MapData, closest: (seq<seq<int>>, int, int) -> (int, int), l: MapLayer)
    requires l in data.layers
    ensures l.layerType == Segment <==> l in Filter(IsSegmentLayer, data.layers)
    ensures l.layerType == Segment ==>
              exists i :: 0 <= i < |Labels(data, closest)| && Labels(data, closest)[i].text == LabelText(l.meta)
  {
    var segs := Filter(IsSegmentLayer, data.layers);
    if l.layerType == Segment {
      var i :| 0 <= i < |segs| && segs[i] == l;
      assert Labels(data, closest)[i] == LabelOf(l, data.pixelSize, closest);
    }
  }

  // ---------------------------------------------------------------------
  // Entities and the go-to marker
  // ---------------------------------------------------------------------

  datatype Drawn = EntityShape(entity: MapEntity) | GoMarker(at: Vec)

  /** `goToMarker ? [...entities, goToMarker] : entities`. */
  function DrawnEntities(entities: seq<MapEntity>, goToPoint: Option<Vec>): (r: seq<Drawn>)
    ensures |r| == |entities| + (if goToPoint.Some? then 1 else 0)
    ensures forall i :: 0 <= i < |entities| ==> r[i] == EntityShape(entities[i])
    ensures (exists d :: d in r && d.GoMarker?) <==> goToPoint.Some?
    ensures goToPoint.Some? ==> r[|r| - 1] == GoMarker(goToPoint.value)
  {
    var shapes := seq(|entities|, i requires 0 <= i < |entities| => EntityShape(entities[i]));
    match goToPoint
    case None =>
      assert forall d :: d in shapes ==> d.EntityShape?;
      shapes
    case Some(p) =>
      var r := shapes + [GoMarker(p)];
      assert r[|r| - 1] in r;
      r
  }

  // ---------------------------------------------------------------------
  // Tap to segment
  // ---------------------------------------------------------------------

  /** The layer covers cell (cx, cy): inside its box and one of its pixels. */
  predicate CoversCell(l: MapLayer, cx: int, cy: int)
  {
    Inside(Vec(cx as real, cy as real), LayerBox(l)) && HasPixel(l.pixels, cx, cy)
  }

  /** The segment layer found by `handleClick`: the first segment layer, in
      map order, covering the tapped cell. Floor and wall never match. */
  function TapSegment(data: MapData, position: Vec): (r: Option<MapLayer>)
    requires data.pixelSize > 0.0
    ensures var cx, cy := CellOf(position.x, data.pixelSize), CellOf(position.y, data.pixelSize);
      && (r.None? <==> forall l :: l in data.layers ==> !(l.layerType == Segment && CoversCell(l, cx, cy)))
      && (r.Some? ==> exists i :: 0 <= i < |data.layers| && data.layers[i] == r.value &&
                        r.value.layerType == Segment && CoversCell(r.value, cx, cy) &&
                        forall j :: 0 <= j < i ==> !(data.layers[j].layerType == Segment && CoversCell(data.layers[j], cx, cy)))
  {
    var cx, cy := CellOf(position.x, data.pixelSize), CellOf(position.y, data.pixelSize);
    var covers := (l: MapLayer) => CoversCell(l, cx, cy);
    var both := (l: MapLayer) => l.layerType == Segment && CoversCell(l, cx, cy);
    FindFilter(covers, IsSegmentLayer, both, data.layers);
    Find(covers, Filter(IsSegmentLayer, data.layers))
  }

  /** `handleClick`: the unrounded position goes out together with the id of
      the segment found, if any. */
  function HandleClick(data: MapData, position: Vec): (r: (Vec, Option<string>))
    requires data.pixelSize > 0.0
    ensures r.0 == position
    ensures TapSegment(data, position).None? ==> r.1 == None
    ensures TapSegment(data, position).Some? ==> r.1 == TapSegment(data, position).value.meta.segmentId
  {
    match TapSegment(data, position)
    case None => (position, None)
    case Some(l) => (position, l.meta.segmentId)
  }

  /** Pixel i of the layer lies inside the layer's box and its drawn square
      contains the tap. */
  predicate PixelUnderTap(l: MapLayer, pixelSize: real, p: Vec, i: nat)
    requires 2 * i + 1 < |l.pixels|
  {
    var px, py := l.pixels[2 * i], l.pixels[2 * i + 1];
    l.dimX.min <= px <= l.dimX.max && l.dimY.min <= py <= l.dimY.max &&
    px as real * pixelSize <= p.x < (px + 1) as real * pixelSize &&
    py as real * pixelSize <= p.y < (py + 1) as real * pixelSize
  }

  /** A pixel of the layer under the tap is the tapped cell, and conversely. */
  lemma PixelUnderTapIsCell(l: MapLayer, pixelSize: real, p: Vec, i: nat)
    requires pixelSize > 0.0 && 2 * i + 1 < |l.pixels|
    ensures PixelUnderTap(l, pixelSize, p, i) <==>
      CellAt(l.pixels, i) == (CellOf(p.x, pixelSize), CellOf(p.y, pixelSize)) &&
      Inside(Vec(l.pixels[2 * i] as real, l.pixels[2 * i + 1] as real), LayerBox(l))
  {
    CellOfIff(p.x, pixelSize, l.pixels[2 * i]);
    CellOfIff(p.y, pixelSize, l.pixels[2 * i + 1]);
  }

  /** The hit-test round trip: a layer covers the cell of a tap exactly when
      the tap lies in the drawn square of one of the layer's pixels and that
      pixel is inside the layer's box. */
  lemma CoversTapIff(l: MapLayer, pixelSize: real, p: Vec)
    requires pixelSize > 0.0
    ensures CoversCell(l, CellOf(p.x, pixelSize), CellOf(p.y, pixelSize)) <==>
      exists i: nat :: i < |l.pixels| / 2 && PixelUnderTap(l, pixelSize, p, i)
  {
    var cx, cy := CellOf(p.x, pixelSize), CellOf(p.y, pixelSize);
    HasPixelIff(l.pixels, cx, cy);
    if CoversCell(l, cx, cy) {
      var i :| 0 <= i < |l.pixels| / 2 && CellAt(l.pixels, i) == (cx, cy);
      PixelUnderTapIsCell(l, pixelSize, p, i);
    }
    if exists i: nat :: i < |l.pixels| / 2 && PixelUnderTap(l, pixelSize, p, i) {
      var i: nat :| i < |l.pixels| / 2 && PixelUnderTap(l, pixelSize, p, i);
      PixelUnderTapIsCell(l, pixelSize, p, i);
    }
  }
}

/** The map snapshot the map components receive (layers of grid cells,
    entities in map-pixel units) and the conversion from a map-pixel position
    to the grid cell under it. */
module MapModel {
  import opened Wrappers
  import opened Geometry
  import opened Seqs

  datatype LayerType = Floor | Wall | Segment

  /** Bounding range of a layer on one axis, in grid cells. */
  datatype Dimension = Dimension(min: int, max: int, mid: int)

  datatype LayerMeta = LayerMeta(
    area: int,
    segmentId: Option<string>,
    name: Option<string>,
    active: bool)

  /** A layer: `pixels` is a flat array of alternating x,y grid cells. */
  datatype MapLayer = MapLayer(
    layerType: LayerType,
    pixels: seq<int>,
    meta: LayerMeta,
    dimX: Dimension,
    dimY: Dimension)

  datatype EntityType =
    | RobotPosition
    | ChargerLocation
    | GoToTarget
    | Path
    | PredictedPath
    | VirtualWall
    | NoGoArea
    | NoMopArea
    | ActiveZone
    | UnknownEntity(name: string)

  /** An entity: `points` is a flat array of x,y values in map pixels. */
  datatype MapEntity = MapEntity(entityType: EntityType, points: seq<real>, angle: Option<real>)

  datatype MapData = MapData(pixelSize: real, layers: seq<MapLayer>, entities: seq<MapEntity>)

  // ---------------------------------------------------------------------
  // From map pixels to grid cells
  // ---------------------------------------------------------------------

  /** `Math.floor(v / pixelSize)`: the grid cell under map-pixel coordinate v. */
  function CellOf(v: real, pixelSize: real): (c: int)
    requires pixelSize > 0.0
    ensures c as real * pixelSize <= v < (c + 1) as real * pixelSize
  {
    var c := (v / pixelSize).Floor;
    CellBounds(v, pixelSize, c);
    c
  }

  lemma CellBounds(v: real, pixelSize: real, c: int)
    requires pixelSize > 0.0 && c == (v / pixelSize).Floor
    ensures c as real * pixelSize <= v < (c + 1) as real * pixelSize
  {
    var q := v / pixelSize;
    assert c as real <= q < c as real + 1.0;
    assert q * pixelSize == v;
    assert c as real * pixelSize <= q * pixelSize;
    assert (c + 1) as real == c as real + 1.0;
    assert q * pixelSize < (c + 1) as real * pixelSize;
  }

  lemma MulMono(a: real, b: real, p: real)
    requires a <= b && p > 0.0
    ensures a * p <= b * p
  {
  }

  /** A coordinate below the end of a square lies below every later square. */
  lemma BelowLater(v: real, a: real, b: real, p: real)
    requires v < a * p && a <= b && p > 0.0
    ensures v < b * p
  {
    MulMono(a, b, p);
  }

  /** A coordinate at or past the start of a square lies past every earlier square. */
  lemma PastEarlier(v: real, a: real, b: real, p: real)
    requires b * p <= v && a <= b && p > 0.0
    ensures a * p <= v
  {
    MulMono(a, b, p);
  }

  /** Every map-pixel coordinate inside the square of cell c resolves to c,
      and only those do (the hit-test round trip on one axis). */
  lemma CellOfIff(v: real, pixelSize: real, c: int)
    requires pixelSize > 0.0
    ensures CellOf(v, pixelSize) == c <==> c as real * pixelSize <= v < (c + 1) as real * pixelSize
  {
    var d := CellOf(v, pixelSize);
    if d < c {
      BelowLater(v, (d + 1) as real, c as real, pixelSize);
    } else if d > c {
      PastEarlier(v, (c + 1) as real, d as real, pixelSize);
    }
  }

  /** The i-th x,y cell of a flat pixel array. */
  function CellAt(pixels: seq<int>, i: nat): (int, int)
    requires 2 * i + 1 < |pixels|
  {
    (pixels[2 * i], pixels[2 * i + 1])
  }

  /** `pairWiseArray(pixels).some(([x, y]) => x === cx && y === cy)`; a
      trailing single element never matches (its y is undefined). */
  predicate HasPixel(pixels: seq<int>, cx: int, cy: int)
  {
    exists k :: 0 <= k < |PairWiseArray(pixels)| && PairWiseArray(pixels)[k] == [cx, cy]
  }

  /** The pixel test holds iff one of the complete x,y pairs is the cell. */
  lemma HasPixelIff(pixels: seq<int>, cx: int, cy: int)
    ensures HasPixel(pixels, cx, cy) <==>
      exists i :: 0 <= i < |pixels| / 2 && CellAt(pixels, i) == (cx, cy)
  {
    PairWiseLength(pixels);
    if HasPixel(pixels, cx, cy) {
      var k :| 0 <= k < |PairWiseArray(pixels)| && PairWiseArray(pixels)[k] == [cx, cy];
      PairWiseAt(pixels, k);
      assert CellAt(pixels, k) == (cx, cy);
    }
    if exists i :: 0 <= i < |pixels| / 2 && CellAt(pixels, i) == (cx, cy) {
      var i :| 0 <= i < |pixels| / 2 && CellAt(pixels, i) == (cx, cy);
      PairWiseAt(pixels, i);
      assert PairWiseArray(pixels)[i] == [cx, cy];
    }
  }

  /** `pairWiseArray(pixels).some((pixel) => manhatten([cx, cy], pixel) === 0)`:
      a trailing single element has an undefined y and never has distance 0. */
  predicate SomePixelAtZero(pixels: seq<int>, cx: int, cy: int)
  {
    exists k :: 0 <= k < |PairWiseArray(pixels)| && |PairWiseArray(pixels)[k]| == 2 &&
      Manhattan(Vec(cx as real, cy as real),
                Vec(PairWiseArray(pixels)[k][0] as real, PairWiseArray(pixels)[k][1] as real)) == 0.0
  }

  /** Distance zero is the exact pixel match. */
  lemma SomePixelAtZeroIff(pixels: seq<int>, cx: int, cy: int)
    ensures SomePixelAtZero(pixels, cx, cy) <==> HasPixel(pixels, cx, cy)
  {
    var P := PairWiseArray(pixels);
    if SomePixelAtZero(pixels, cx, cy) {
      var k :| 0 <= k < |P| && |P[k]| == 2 &&
        Manhattan(Vec(cx as real, cy as real), Vec(P[k][0] as real, P[k][1] as real)) == 0.0;
      assert P[k] == [cx, cy];
    }
    if HasPixel(pixels, cx, cy) {
      var k :| 0 <= k < |P| && P[k] == [cx, cy];
      assert Manhattan(Vec(cx as real, cy as real), Vec(P[k][0] as real, P[k][1] as real)) == 0.0;
    }
  }

  // ---------------------------------------------------------------------
  // What the map draws
  // ---------------------------------------------------------------------

  /** A theme colour, or undefined when a palette has no such entry. */
  type Color = Option<string>

  /** A layer colour; `Desaturated` stands for the colour library's
      `desaturate(0.7)` of the base colour. */
  datatype Paint = Plain(color: Color) | Desaturated(color: Color)

  /** A layer as handed to the map component. */
  datatype RenderLayer = RenderLayer(id: string, pixels: seq<int>, pixelSize: real, box: Box, paint: Paint)

  // ---------------------------------------------------------------------
  // Extent of a set of layers
  // ---------------------------------------------------------------------

  /** Layer dimensions as the robot reports them: min no larger than max. */
  predicate WellFormed(l: MapLayer)
  {
    l.dimX.min <= l.dimX.max && l.dimY.min <= l.dimY.max
  }

  /** The cells spanned by a set of layers. */
  datatype Extent = Extent(minX: int, maxX: int, minY: int, maxY: int)

  /** `Math.min(...layers.map(l => l.dimensions.x.min))` and its three
      siblings. With no layers the minimum is Infinity and nothing can be
      drawn; the model says None. */
  function BoundingBox(layers: seq<MapLayer>): (r: Option<Extent>)
    ensures r.None? <==> |layers| == 0
    ensures r.Some? ==> forall l :: l in layers ==>
              r.value.minX <= l.dimX.min && l.dimX.max <= r.value.maxX &&
              r.value.minY <= l.dimY.min && l.dimY.max <= r.value.maxY
    ensures r.Some? ==> (exists l :: l in layers && l.dimX.min == r.value.minX) &&
                        (exists l :: l in layers && l.dimX.max == r.value.maxX) &&
                        (exists l :: l in layers && l.dimY.min == r.value.minY) &&
                        (exists l :: l in layers && l.dimY.max == r.value.maxY)
  {
    if |layers| == 0 then None
    else
      var xmins := seq(|layers|, i requires 0 <= i < |layers| => layers[i].dimX.min);
      var xmaxs := seq(|layers|, i requires 0 <= i < |layers| => layers[i].dimX.max);
      var ymins := seq(|layers|, i requires 0 <= i < |layers| => layers[i].dimY.min);
      var ymaxs := seq(|layers|, i requires 0 <= i < |layers| => layers[i].dimY.max);
      var e := Extent(MinOf(xmins), MaxOf(xmaxs), MinOf(ymins), MaxOf(ymaxs));
      assert forall l :: l in layers ==> l.dimX.min in xmins && l.dimX.max in xmaxs &&
                                         l.dimY.min in ymins && l.dimY.max in ymaxs by {
        forall l | l in layers ensures l.dimX.min in xmins && l.dimX.max in xmaxs &&
                                       l.dimY.min in ymins && l.dimY.max in ymaxs {
          var i :| 0 <= i < |layers| && layers[i] == l;
          assert xmins[i] == l.dimX.min && xmaxs[i] == l.dimX.max;
          assert ymins[i] == l.dimY.min && ymaxs[i] == l.dimY.max;
        }
      }
      var a :| 0 <= a < |layers| && xmins[a] == e.minX;
      var b :| 0 <= b < |layers| && xmaxs[b] == e.maxX;
      var c :| 0 <= c < |layers| && ymins[c] == e.minY;
      var d :| 0 <= d < |layers| && ymaxs[d] == e.maxY;
      assert layers[a] in layers && layers[b] in layers && layers[c] in layers && layers[d] in layers;
      Some(e)
  }
}

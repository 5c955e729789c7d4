/** The temporary-zones layer: taps add 100x100 zones up to the robot's
    maximum, zones are moved and resized in place, and the overlay sends
    them as four-corner polygons. */
module ZonesLayer {
  import opened Wrappers
  import opened Geometry
  import opened MapModel
  import opened Seqs
  import RobotModel

  /** A zone being edited: top-left corner, size and iteration count. */
  datatype Zone = Zone(id: string, iterations: int, position: Vec, width: real, height: real)

  /** The zone as sent to the robot: corners A, B, C, D clockwise from the
      top left. */
  datatype ZonePoints = ZonePoints(pA: Vec, pB: Vec, pC: Vec, pD: Vec, iterations: int)

  const NewZoneSize := 100.0
  const MinimumSizeInPixels := 5.0
  const MinimumTransformedWidth := 5.0

  /** `{x: [x, x + width], y: [y, y + height]}`. */
  function ZoneBox(z: Zone): Box
  {
    Box(z.position.x, z.position.x + z.width, z.position.y, z.position.y + z.height)
  }

  function Ids(zones: seq<Zone>): seq<string>
  {
    seq(|zones|, i requires 0 <= i < |zones| => zones[i].id)
  }

  /** The zone a tap creates, centred on the tap. */
  function NewZone(id: string, position: Vec): (z: Zone)
    ensures z.width == NewZoneSize && z.height == NewZoneSize && z.iterations == 1 && z.id == id
    ensures Inside(position, ZoneBox(z))
    ensures z.position.x + z.width / 2.0 == position.x && z.position.y + z.height / 2.0 == position.y
  {
    Zone(id, 1, Vec(position.x - 50.0, position.y - 50.0), NewZoneSize, NewZoneSize)
  }

  /** `prev.map((old) => (old.id === zone.id ? zone : old))`. */
  function ReplaceById(zones: seq<Zone>, zone: Zone): (r: seq<Zone>)
    ensures |r| == |zones|
    ensures forall i :: 0 <= i < |r| ==> (zones[i].id == zone.id ==> r[i] == zone)
    ensures forall i :: 0 <= i < |r| ==> (zones[i].id != zone.id ==> r[i] == zones[i])
  {
    seq(|zones|, i requires 0 <= i < |zones| => if zones[i].id == zone.id then zone else zones[i])
  }

  /** Replacing keeps every id in place, so the ids stay distinct. */
  lemma ReplaceKeepsIds(zones: seq<Zone>, zone: Zone)
    ensures Ids(ReplaceById(zones, zone)) == Ids(zones)
  {
  }

  /** Replacing twice with the same zone is replacing once. */
  lemma ReplaceIdempotent(zones: seq<Zone>, zone: Zone)
    ensures ReplaceById(ReplaceById(zones, zone), zone) == ReplaceById(zones, zone)
  {
  }

  /** A zone whose id is not present is dropped: the list is unchanged. */
  lemma ReplaceAbsent(zones: seq<Zone>, zone: Zone)
    requires zone.id !in Ids(zones)
    ensures ReplaceById(zones, zone) == zones
  {
    forall i | 0 <= i < |zones| ensures zones[i].id != zone.id {
      assert Ids(zones)[i] == zones[i].id;
    }
  }

  class ZonesLayerState {
    var zones: seq<Zone>
    var selectedId: Option<string>

    constructor ()
      ensures zones == [] && selectedId == None
    {
      zones := [];
      selectedId := None;
    }

    method HandleClear()
      modifies this
      ensures zones == [] && selectedId == None
    {
      zones := [];
      selectedId := None;
    }

    /** A tap on the map. `maxZoneCount` is the robot's zone limit (undefined
        while its properties load) and `freshId` the identifier the tap
        would give a new zone. Returns whether the "max zones" notice is
        shown. */
    method HandleClick(position: Vec, maxZoneCount: Option<int>, freshId: string) returns (maxedNotice: bool)
      modifies this
      ensures maxedNotice <==> maxZoneCount.Some? && |old(zones)| >= maxZoneCount.value
      ensures var added := maxZoneCount.Some? && |old(zones)| < maxZoneCount.value &&
                           !(exists z :: z in old(zones) && Inside(position, ZoneBox(z)));
        && (added ==> zones == old(zones) + [NewZone(freshId, position)] && selectedId == Some(freshId))
        && (!added ==> zones == old(zones) && selectedId == old(selectedId))
      ensures maxZoneCount.Some? && |old(zones)| <= maxZoneCount.value ==> |zones| <= maxZoneCount.value
      ensures NoDuplicates(Ids(old(zones))) && freshId !in Ids(old(zones)) ==> NoDuplicates(Ids(zones))
    {
      maxedNotice := false;
      if maxZoneCount.None? {
        return;
      }
      if |zones| >= maxZoneCount.value {
        maxedNotice := true;
        return;
      }
      if Any((z: Zone) => Inside(position, ZoneBox(z)), zones) {
        return;
      }
      ghost var before := zones;
      zones := zones + [NewZone(freshId, position)];
      selectedId := Some(freshId);
      assert Ids(zones) == Ids(before) + [freshId];
    }

    /** Selecting a zone (tap, click or drag start). */
    method HandleSelect(id: string)
      modifies this
      ensures selectedId == Some(id) && zones == old(zones)
    {
      selectedId := Some(id);
    }

    /** `onChange`: a drag or resize of one zone replaces the zone with the
        same id and leaves the others, and their order, as they were. */
    method HandleChange(zone: Zone)
      modifies this
      ensures zones == ReplaceById(old(zones), zone)
      ensures Ids(zones) == Ids(old(zones))
      ensures selectedId == old(selectedId)
    {
      zones := ReplaceById(zones, zone);
      ReplaceKeepsIds(old(zones), zone);
    }
  }

  /** A dragged zone keeps its size and moves its corner to where the shape
      was dropped. */
  function DraggedZone(zone: Zone, dropped: Vec): (r: Zone)
    ensures r.id == zone.id && r.width == zone.width && r.height == zone.height && r.iterations == zone.iterations
    ensures r.position == dropped
  {
    zone.(position := dropped)
  }

  /** A transformer box. */
  datatype TransformBox = TransformBox(x: real, y: real, width: real, height: real, rotation: real)

  /** `boundBoxFunc`: a resize to less than five map pixels in either
      direction keeps the old box. */
  function BoundBox(oldBox: TransformBox, newBox: TransformBox, pixelSize: real): (r: TransformBox)
    ensures r == newBox <==> (newBox == oldBox ||
              (newBox.width >= MinimumSizeInPixels * pixelSize && newBox.height >= MinimumSizeInPixels * pixelSize))
    ensures r == oldBox || r == newBox
  {
    if newBox.width < MinimumSizeInPixels * pixelSize || newBox.height < MinimumSizeInPixels * pixelSize then oldBox
    else newBox
  }

  /** A box at least the minimum size stays at least the minimum size
      through any sequence of resizes. */
  lemma BoundBoxKeepsMinimum(oldBox: TransformBox, newBox: TransformBox, pixelSize: real)
    requires oldBox.width >= MinimumSizeInPixels * pixelSize && oldBox.height >= MinimumSizeInPixels * pixelSize
    ensures var r := BoundBox(oldBox, newBox, pixelSize);
      r.width >= MinimumSizeInPixels * pixelSize && r.height >= MinimumSizeInPixels * pixelSize
  {
  }

  /** The rectangle drawn for a zone, whose scale the transformer changes. */
  class ZoneShape {
    var x: real
    var y: real
    var width: real
    var height: real
    var scaleX: real
    var scaleY: real

    constructor (zone: Zone)
      ensures x == zone.position.x && y == zone.position.y
      ensures width == zone.width && height == zone.height
      ensures scaleX == 1.0 && scaleY == 1.0
    {
      x, y := zone.position.x, zone.position.y;
      width, height := zone.width, zone.height;
      scaleX, scaleY := 1.0, 1.0;
    }

    /** `onTransformEnd`: the transformer's scale is folded into the size,
        the width no smaller than 5 and the height without a minimum (the
        source passes a single argument to `Math.max`), and the shape's
        scale is reset to 1. */
    method TransformEnd(zone: Zone) returns (changed: Zone)
      modifies this
      ensures scaleX == 1.0 && scaleY == 1.0
      ensures x == old(x) && y == old(y) && width == old(width) && height == old(height)
      ensures changed.id == zone.id && changed.iterations == zone.iterations
      ensures changed.position == Vec(old(x), old(y))
      ensures changed.width == Max(MinimumTransformedWidth, old(width) * old(scaleX))
      ensures changed.width >= MinimumTransformedWidth
      ensures changed.height == old(height) * old(scaleY)
    {
      var sx, sy := scaleX, scaleY;
      scaleX := 1.0;
      scaleY := 1.0;
      changed := zone.(position := Vec(x, y), width := Max(MinimumTransformedWidth, width * sx), height := height * sy);
    }
  }

  // ---------------------------------------------------------------------
  // Submitting
  // ---------------------------------------------------------------------

  /** The four corners of a zone. */
  function ToPoints(z: Zone): (p: ZonePoints)
    ensures p.pA == z.position && p.iterations == z.iterations
    ensures p.pB == Vec(z.position.x + z.width, z.position.y)
    ensures p.pC == Vec(z.position.x + z.width, z.position.y + z.height)
    ensures p.pD == Vec(z.position.x, z.position.y + z.height)
  {
    var x, y := z.position.x, z.position.y;
    ZonePoints(Vec(x, y), Vec(x + z.width, y), Vec(x + z.width, y + z.height), Vec(x, y + z.height), z.iterations)
  }

  /** Reading a rectangle back from its corners. */
  function FromPoints(id: string, p: ZonePoints): Zone
  {
    Zone(id, p.iterations, p.pA, p.pC.x - p.pA.x, p.pC.y - p.pA.y)
  }

  /** The corners determine the zone: serialising loses only the id. */
  lemma PointsRoundTrip(z: Zone)
    ensures FromPoints(z.id, ToPoints(z)) == z
  {
  }

  /** The corners form an axis-aligned rectangle: A-B and D-C are
      horizontal, A-D and B-C vertical. */
  lemma PointsAreRectangle(z: Zone)
    ensures var p := ToPoints(z);
      p.pA.y == p.pB.y && p.pD.y == p.pC.y && p.pA.x == p.pD.x && p.pB.x == p.pC.x &&
      p.pB.x - p.pA.x == z.width && p.pD.y - p.pA.y == z.height
  {
  }

  /** The overlay's clean button: every zone as its corners, in order, if
      pressing it sends anything. */
  function CleanRequest(zones: seq<Zone>, status: Option<RobotModel.StatusValue>): (r: Option<seq<ZonePoints>>)
    ensures r.Some? <==> |zones| > 0 && RobotModel.CanStart(status)
    ensures r.Some? ==> |r.value| == |zones| && forall i :: 0 <= i < |zones| ==> r.value[i] == ToPoints(zones[i])
  {
    if |zones| == 0 || !RobotModel.CanStart(status) then None
    else Some(seq(|zones|, i requires 0 <= i < |zones| => ToPoints(zones[i])))
  }

  predicate ShownEntity(e: MapEntity)
  {
    e.entityType == NoGoArea || e.entityType == NoMopArea || e.entityType == VirtualWall
  }

  /** The entities the zones layer draws besides the zones: restricted
      areas and virtual walls only. */
  function ShownEntities(entities: seq<MapEntity>): (r: seq<MapEntity>)
    ensures forall e :: e in r <==> e in entities && e.entityType in {NoGoArea, NoMopArea, VirtualWall}
  {
    Filter(ShownEntity, entities)
  }
}

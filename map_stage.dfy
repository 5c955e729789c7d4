/** The viewport transform and touch-gesture engine of the map stage: the
    fit-to-container scale, zoom about a point clamped to
    [fit scale, fit scale * ScaleBound], per-axis pan bounds, the one-finger
    pan / two-finger pinch / tap state machine, and the rescaling of nodes
    that keep a constant on-screen size. */
module MapStage {
  import opened Wrappers
  import opened Geometry

  /** How far the user may zoom in, as a multiple of the fit scale. */
  const ScaleBound: real := 10.0

  // ---------------------------------------------------------------------
  // Pure parts of the transform
  // ---------------------------------------------------------------------

  /** The fit scale `min((W - 2p) / w, (H - 2p) / h)`: the largest scale at
      which the map, of size w x h, fits the padded container on both axes. */
  function FitScale(containerWidth: real, containerHeight: real, padding: real,
                    width: real, height: real): (s: real)
    requires width > 0.0 && height > 0.0
    ensures s * width <= containerWidth - padding * 2.0
    ensures s * height <= containerHeight - padding * 2.0
    ensures s * width == containerWidth - padding * 2.0 || s * height == containerHeight - padding * 2.0
  {
    var sx := (containerWidth - padding * 2.0) / width;
    var sy := (containerHeight - padding * 2.0) / height;
    if sx <= sy then
      assert sx * height <= sy * height == containerHeight - padding * 2.0;
      sx
    else
      assert sy * width <= sx * width == containerWidth - padding * 2.0;
      sy
  }

  /** The stage offset on one axis: the caller's offset shifted by the
      padding expressed in map units (`offset - padding / fitScale`), so that
      the padding appears on screen as `padding` pixels. */
  function StageOffset(offset: real, padding: real, fit: real): (o: real)
    requires fit > 0.0
    ensures (offset - o) * fit == padding
  {
    offset - padding / fit
  }

  /** Scale limits a node declares through its `minimumScale` and
      `maximumScale` attributes. */
  datatype ScaleLimits = ScaleLimits(minimumScale: Option<real>, maximumScale: Option<real>)

  /** The nodes `stage.find` returns: a defined minimum, or a truthy maximum
      (a maximum of 0 is falsy, so such a node alone is not rescaled). */
  predicate IsPersistent(n: ScaleLimits)
  {
    n.minimumScale.Some? || (n.maximumScale.Some? && n.maximumScale.value != 0.0)
  }

  /** `bound(stageScale, min ?? -Infinity, max ?? Infinity)`: the on-screen
      scale a persistent node should have. */
  function VisualScale(stageScale: real, n: ScaleLimits): (v: real)
    ensures n.minimumScale.Some? && n.maximumScale.Some? ==>
              v == Bound(stageScale, n.minimumScale.value, n.maximumScale.value)
    ensures n.minimumScale.None? && n.maximumScale.None? ==> v == stageScale
    ensures n.minimumScale.Some? && n.maximumScale.None? ==>
              v >= n.minimumScale.value && (stageScale >= n.minimumScale.value ==> v == stageScale)
    ensures n.minimumScale.None? && n.maximumScale.Some? ==>
              v <= n.maximumScale.value && (stageScale <= n.maximumScale.value ==> v == stageScale)
  {
    var lo := if n.minimumScale.Some? then Max(n.minimumScale.value, stageScale) else stageScale;
    if n.maximumScale.Some? then Min(n.maximumScale.value, lo) else lo
  }

  /** The local scale given to a persistent node: the visual scale divided by
      the stage scale, so that stage scale times local scale is the visual
      scale; other nodes keep their current scale. */
  function NodeScale(stageScale: real, n: ScaleLimits, current: real): (r: real)
    requires stageScale > 0.0
    ensures IsPersistent(n) ==> r * stageScale == VisualScale(stageScale, n)
    ensures !IsPersistent(n) ==> r == current
  {
    if IsPersistent(n) then VisualScale(stageScale, n) / stageScale else current
  }

  /** Local (map) coordinates of screen point p under position pos and scale s. */
  function ToLocal(p: Vec, pos: Vec, s: real): Vec
    requires s != 0.0
  {
    Vec((p.x - pos.x) / s, (p.y - pos.y) / s)
  }

  function Plus(a: Vec, b: Vec): Vec { Vec(a.x + b.x, a.y + b.y) }

  lemma PlusZero(a: Vec)
    ensures Plus(a, ZeroVector) == a
  {
  }
  function Minus(a: Vec, b: Vec): Vec { Vec(a.x - b.x, a.y - b.y) }

  /** The scale `scaleStage` sets: the product clamped to [fit, fit * 10]. */
  function ZoomedScale(current: real, scaleDelta: real, fit: real): (s: real)
    ensures fit >= 0.0 ==> fit <= s <= fit * ScaleBound
    ensures fit >= 0.0 && fit <= current * scaleDelta <= fit * ScaleBound ==> s == current * scaleDelta
  {
    Bound(current * scaleDelta, fit, fit * ScaleBound)
  }

  /** The position `scaleStage` sets: the map point under `center` at the old
      transform ends up under `center + centerDelta` at the new one. */
  function ZoomedPosition(center: Vec, pos: Vec, scale: real, newScale: real, centerDelta: Vec): (r: Vec)
    requires scale != 0.0 && newScale != 0.0
    ensures ToLocal(Plus(center, centerDelta), r, newScale) == ToLocal(center, pos, scale)
  {
    var local := ToLocal(center, pos, scale);
    var r := Vec(center.x - local.x * newScale + centerDelta.x, center.y - local.y * newScale + centerDelta.y);
    assert (local.x * newScale) / newScale == local.x;
    assert (local.y * newScale) / newScale == local.y;
    r
  }

  /** Zoom about a point: with no centre movement, the map point under the
      pivot is the same before and after the update, whatever the clamp. */
  lemma ZoomAboutPoint(center: Vec, pos: Vec, scale: real, scaleDelta: real, fit: real)
    requires fit > 0.0 && scale != 0.0
    ensures ZoomedScale(scale, scaleDelta, fit) > 0.0
    ensures ToLocal(center, ZoomedPosition(center, pos, scale, ZoomedScale(scale, scaleDelta, fit), ZeroVector),
                    ZoomedScale(scale, scaleDelta, fit))
         == ToLocal(center, pos, scale)
  {
    var s := ZoomedScale(scale, scaleDelta, fit);
    assert Plus(center, ZeroVector) == center;
  }

  /** The wheel's scale factor `(100 - deltaY) / 100`. */
  function WheelScaleDelta(deltaY: real): (d: real)
    ensures deltaY < 0.0 ==> d > 1.0
    ensures deltaY > 0.0 ==> d < 1.0
    ensures deltaY == 0.0 ==> d == 1.0
  {
    (100.0 - deltaY) / 100.0
  }

  /** `calculateBoundaries`: one axis of the pan bound. */
  function AxisBound(value: real, container: real, mapSize: real, fit: real, scale: real, padding: real): (r: real)
    requires fit > 0.0 && scale > 0.0
    ensures var lo := -(mapSize * fit - padding / fit) * (scale / fit);
            var hi := (Max(container, mapSize * fit) - padding / fit * 2.0) * (fit / scale);
            (lo <= hi ==> lo <= r <= hi) && (lo <= value <= hi ==> r == value) && (lo > hi ==> r == hi)
  {
    var scaledPadding := padding / fit;
    Bound(value,
          -(mapSize * fit - scaledPadding) * (scale / fit),
          (Max(container, mapSize * fit) - scaledPadding * 2.0) * (fit / scale))
  }

  // ---------------------------------------------------------------------
  // The stage and its gesture state
  // ---------------------------------------------------------------------

  class Stage {
    var containerWidth: real
    var containerHeight: real
    const padding: real
    const width: real
    const height: real
    const offsetX: real
    const offsetY: real

    /** `stage.scaleX()` (always equal to `stage.scaleY()`) and `stage.position()`. */
    var scale: real
    var pos: Vec

    /** The gesture refs. */
    var lastCenter: Option<Vec>
    var lastDragCenter: Option<Vec>
    var lastDist: real

    /** The persistent-scale nodes: their declared limits and their local scale. */
    const limits: seq<ScaleLimits>
    const nodeScales: array<real>

    function Fit(): real
      reads this`containerWidth, this`containerHeight
      requires width > 0.0 && height > 0.0
    {
      FitScale(containerWidth, containerHeight, padding, width, height)
    }

    /** Every persistent node has the local scale that gives it its visual scale. */
    ghost predicate NodesScaled()
      reads this, nodeScales
      requires scale > 0.0
    {
      nodeScales.Length == |limits| &&
      forall i :: 0 <= i < |limits| && IsPersistent(limits[i]) ==>
        nodeScales[i] == VisualScale(scale, limits[i]) / scale
    }

    ghost predicate Valid()
      reads this, nodeScales
    {
      width > 0.0 && height > 0.0 && Fit() > 0.0 &&
      Fit() <= scale <= Fit() * ScaleBound &&
      lastDist >= 0.0 &&
      NodesScaled()
    }

    /** Every node has the scale `scalePersistentNodes` gives it at the
        current stage scale: persistent nodes are rescaled, the others keep
        the scale they had. */
    twostate predicate Rescaled()
      reads this`scale, nodeScales
      requires scale > 0.0 && nodeScales.Length == |limits|
    {
      forall i :: 0 <= i < |limits| ==> nodeScales[i] == NodeScale(scale, limits[i], old(nodeScales[i]))
    }

    /** The offset the stage is rendered with: the caller's offset shifted by
        the padding expressed in map units. */
    function RenderedOffset(): (o: Vec)
      reads this
      requires width > 0.0 && height > 0.0 && Fit() > 0.0
      ensures (offsetX - o.x) * Fit() == padding && (offsetY - o.y) * Fit() == padding
    {
      Vec(StageOffset(offsetX, padding, Fit()), StageOffset(offsetY, padding, Fit()))
    }

    /** Mounting: the stage starts at the fit scale at the origin, with no
        gesture in progress, and the persistent nodes are rescaled. */
    constructor (containerWidth: real, containerHeight: real, padding: real, width: real, height: real,
                 offsetX: real, offsetY: real, limits: seq<ScaleLimits>, nodeScales: array<real>)
      requires width > 0.0 && height > 0.0
      requires FitScale(containerWidth, containerHeight, padding, width, height) > 0.0
      requires nodeScales.Length == |limits|
      modifies nodeScales
      ensures Valid()
      ensures this.limits == limits && this.nodeScales == nodeScales
      ensures scale == Fit() && pos == ZeroVector
      ensures lastCenter == None && lastDragCenter == None && lastDist == 0.0
    {
      this.containerWidth := containerWidth;
      this.containerHeight := containerHeight;
      this.padding := padding;
      this.width := width;
      this.height := height;
      this.offsetX := offsetX;
      this.offsetY := offsetY;
      this.limits := limits;
      this.nodeScales := nodeScales;
      scale := FitScale(containerWidth, containerHeight, padding, width, height);
      pos := ZeroVector;
      lastCenter := None;
      lastDragCenter := None;
      lastDist := 0.0;
      new;
      ScalePersistentNodes();
    }

    /** `scalePersistentNodes`: give every persistent node its local scale;
        the other nodes are left alone. */
    method ScalePersistentNodes()
      requires scale > 0.0 && nodeScales.Length == |limits|
      modifies nodeScales
      ensures NodesScaled()
      ensures forall i :: 0 <= i < |limits| ==>
                nodeScales[i] == NodeScale(scale, limits[i], old(nodeScales[i]))
    {
      for i := 0 to nodeScales.Length
        invariant forall j :: 0 <= j < i ==> nodeScales[j] == NodeScale(scale, limits[j], old(nodeScales[j]))
        invariant forall j :: i <= j < nodeScales.Length ==> nodeScales[j] == old(nodeScales[j])
      {
        nodeScales[i] := NodeScale(scale, limits[i], nodeScales[i]);
      }
    }

    /** The imperative handle's `redraw()`: re-apply the persistent scales. */
    method Redraw()
      requires Valid()
      modifies nodeScales
      ensures Valid()
      ensures forall i :: 0 <= i < |limits| ==>
                nodeScales[i] == NodeScale(scale, limits[i], old(nodeScales[i]))
    {
      ScalePersistentNodes();
    }

    /** The container was measured again. When the fit scale changes, the
        effect resets the stage scale to it and rescales the nodes. */
    method Resize(newWidth: real, newHeight: real)
      requires Valid()
      requires FitScale(newWidth, newHeight, padding, width, height) > 0.0
      modifies this, nodeScales
      ensures Valid()
      ensures containerWidth == newWidth && containerHeight == newHeight
      ensures old(Fit()) != Fit() ==> scale == Fit() && Rescaled()
      ensures old(Fit()) == Fit() ==> scale == old(scale) && unchanged(nodeScales)
      ensures pos == old(pos) && lastCenter == old(lastCenter)
      ensures lastDragCenter == old(lastDragCenter) && lastDist == old(lastDist)
    {
      var before := Fit();
      containerWidth, containerHeight := newWidth, newHeight;
      if Fit() != before {
        scale := Fit();
        ScalePersistentNodes();
      }
    }

    /** `scaleStage`: zoom by `scaleDelta` about `center`, clamped to
        [fit, fit * ScaleBound], then move by `centerDelta`; the map point
        under `center` ends up under `center + centerDelta`. */
    method ScaleStage(center: Vec, scaleDelta: real, centerDelta: Vec)
      requires Valid()
      modifies this, nodeScales
      ensures Valid()
      ensures scale == ZoomedScale(old(scale), scaleDelta, Fit())
      ensures ToLocal(Plus(center, centerDelta), pos, scale) == ToLocal(center, old(pos), old(scale))
      ensures Rescaled()
      ensures lastCenter == old(lastCenter) && lastDragCenter == old(lastDragCenter) && lastDist == old(lastDist)
      ensures containerWidth == old(containerWidth) && containerHeight == old(containerHeight)
    {
      var newScale := ZoomedScale(scale, scaleDelta, Fit());
      pos := ZoomedPosition(center, pos, scale, newScale, centerDelta);
      scale := newScale;
      ScalePersistentNodes();
    }

    /** `handleScroll`: unless the forwarded `onWheel` prevented the default,
        zoom about the cursor (the origin when there is none) by
        `(100 - deltaY) / 100`. */
    method HandleScroll(cursor: Option<Vec>, deltaY: real, defaultPrevented: bool)
      requires Valid()
      modifies this, nodeScales
      ensures Valid()
      ensures containerWidth == old(containerWidth) && containerHeight == old(containerHeight)
      ensures defaultPrevented ==> scale == old(scale) && pos == old(pos) && unchanged(nodeScales)
      ensures !defaultPrevented ==> scale == ZoomedScale(old(scale), WheelScaleDelta(deltaY), Fit())
      ensures !defaultPrevented ==> Rescaled()
      ensures !defaultPrevented ==>
                ToLocal(cursor.GetOr(ZeroVector), pos, scale) == ToLocal(cursor.GetOr(ZeroVector), old(pos), old(scale))
      ensures lastCenter == old(lastCenter) && lastDragCenter == old(lastDragCenter) && lastDist == old(lastDist)
    {
      if !defaultPrevented {
        var center := cursor.GetOr(ZeroVector);
        ghost var p0, s0 := pos, scale;
        ScaleStage(center, WheelScaleDelta(deltaY), ZeroVector);
        PlusZero(center);
        assert ToLocal(center, pos, scale) == ToLocal(center, p0, s0);
      }
    }

    /** `dragBoundFunc`: each axis is clamped on its own, using only that
        axis's container size and map size. */
    function DragBound(p: Vec): (r: Vec)
      reads this
      requires width > 0.0 && height > 0.0 && Fit() > 0.0 && scale > 0.0
      ensures AxisBound(r.x, containerWidth, width, Fit(), scale, padding) == r.x
      ensures AxisBound(r.y, containerHeight, height, Fit(), scale, padding) == r.y
    {
      Vec(AxisBound(p.x, containerWidth, width, Fit(), scale, padding),
          AxisBound(p.y, containerHeight, height, Fit(), scale, padding))
    }

    /** `handleOneTouch`: the first move only records the anchor; later moves
        pan by the finger's movement, bounded, and move the anchor. */
    method HandleOneTouch(touch: Vec)
      requires Valid()
      modifies this
      ensures Valid()
      ensures lastDragCenter == Some(touch)
      ensures old(lastDragCenter).None? ==> pos == old(pos)
      ensures old(lastDragCenter).Some? ==>
                pos == old(DragBound(Plus(pos, Minus(touch, lastDragCenter.value))))
      ensures scale == old(scale) && lastCenter == old(lastCenter) && lastDist == old(lastDist)
      ensures containerWidth == old(containerWidth) && containerHeight == old(containerHeight)
    {
      if lastDragCenter.None? {
        lastDragCenter := Some(touch);
        return;
      }
      pos := DragBound(Vec(pos.x + touch.x - lastDragCenter.value.x, pos.y + touch.y - lastDragCenter.value.y));
      lastDragCenter := Some(touch);
    }

    /** `handleTwoTouches` for a pinch with the given midpoint and finger
        distance: the first move only initialises the refs (scale delta 1,
        centre delta 0); each move zooms about the last centre by the ratio
        of distances, follows the centre's movement, and stores both. */
    method HandleTwoTouches(newCenter: Vec, dist: real)
      requires Valid() && dist >= 0.0 && (dist > 0.0 || lastDist > 0.0)
      modifies this, nodeScales
      ensures Valid()
      ensures lastCenter == Some(newCenter) && lastDist == dist
      ensures var c := old(lastCenter).GetOr(newCenter);
              var d := if old(lastDist) == 0.0 then dist else old(lastDist);
              scale == ZoomedScale(old(scale), dist / d, Fit()) &&
              ToLocal(newCenter, pos, scale) == ToLocal(c, old(pos), old(scale))
      ensures old(lastCenter).None? && old(lastDist) == 0.0 ==> scale == old(scale) && pos == old(pos)
      ensures lastDragCenter == old(lastDragCenter)
      ensures containerWidth == old(containerWidth) && containerHeight == old(containerHeight)
      ensures Rescaled()
    {
      // the first move stores the refs first, so it zooms by 1 about newCenter
      var c := lastCenter.GetOr(newCenter);
      var d := if lastDist == 0.0 then dist else lastDist;
      var scaleDelta := dist / d;
      if lastDist == 0.0 {
        UnitRatio(dist);
      }
      var centerDelta := Minus(newCenter, c);
      ghost var oldPos, oldScale := pos, scale;
      ScaleStage(c, scaleDelta, centerDelta);
      assert Rescaled();
      assert Plus(c, centerDelta) == newCenter;
      if c == newCenter && scaleDelta == 1.0 {
        assert scale == oldScale;
        LocalDeterminesPosition(newCenter, pos, oldPos, scale);
      }
      lastDist := dist;
      lastCenter := Some(newCenter);
    }

    /** `handleTouchMove`: unless the forwarded `onTouchMove` prevented the
        default, one touch pans and two touches pinch (`pinchDistance` is the
        distance between the two touches); any other count does nothing. */
    method HandleTouchMove(touches: seq<Vec>, pinchDistance: real, defaultPrevented: bool)
      requires Valid()
      requires |touches| == 2 ==> pinchDistance >= 0.0 && (pinchDistance > 0.0 || lastDist > 0.0)
      modifies this, nodeScales
      ensures Valid()
      ensures containerWidth == old(containerWidth) && containerHeight == old(containerHeight)
      ensures defaultPrevented || (|touches| != 1 && |touches| != 2) ==>
                scale == old(scale) && pos == old(pos) && lastCenter == old(lastCenter) &&
                lastDragCenter == old(lastDragCenter) && lastDist == old(lastDist) && unchanged(nodeScales)
      // one finger pans
      ensures !defaultPrevented && |touches| == 1 ==>
                lastDragCenter == Some(touches[0]) &&
                scale == old(scale) && lastCenter == old(lastCenter) && lastDist == old(lastDist) &&
                unchanged(nodeScales)
      ensures !defaultPrevented && |touches| == 1 && old(lastDragCenter).None? ==> pos == old(pos)
      ensures !defaultPrevented && |touches| == 1 && old(lastDragCenter).Some? ==>
                pos == old(DragBound(Plus(pos, Minus(touches[0], lastDragCenter.value))))
      // two fingers pinch
      ensures !defaultPrevented && |touches| == 2 ==>
                lastCenter == Some(Midpoint(touches[0], touches[1])) && lastDist == pinchDistance &&
                lastDragCenter == old(lastDragCenter) && Rescaled()
      ensures !defaultPrevented && |touches| == 2 ==>
                var m := Midpoint(touches[0], touches[1]);
                var c := old(lastCenter).GetOr(m);
                var d := if old(lastDist) == 0.0 then pinchDistance else old(lastDist);
                scale == ZoomedScale(old(scale), pinchDistance / d, Fit()) &&
                ToLocal(m, pos, scale) == ToLocal(c, old(pos), old(scale))
    {
      if defaultPrevented {
        return;
      }
      if |touches| == 1 {
        HandleOneTouch(touches[0]);
      } else if |touches| == 2 {
        HandleTwoTouches(Midpoint(touches[0], touches[1]), pinchDistance);
      }
    }

    /** `handleTouchEnd`: the distance is always reset; when a pan or pinch
        anchor was set both anchors are cleared and the event is swallowed,
        otherwise it is forwarded to `onTouchEnd` as a tap. */
    method HandleTouchEnd() returns (forwarded: bool)
      requires Valid()
      modifies this
      ensures Valid()
      ensures lastDist == 0.0
      ensures forwarded <==> old(lastCenter).None? && old(lastDragCenter).None?
      ensures lastCenter == None && lastDragCenter == None
      ensures scale == old(scale) && pos == old(pos)
      ensures containerWidth == old(containerWidth) && containerHeight == old(containerHeight)
    {
      lastDist := 0.0;
      if lastDragCenter.Some? || lastCenter.Some? {
        lastCenter := None;
        lastDragCenter := None;
        return false;
      }
      return true;
    }
  }

  /** `getCenter`, assumed to be the midpoint of the two touches. */
  function Midpoint(a: Vec, b: Vec): Vec
  {
    Vec((a.x + b.x) / 2.0, (a.y + b.y) / 2.0)
  }

  /** A distance compared with itself gives the unit zoom. */
  lemma UnitRatio(d: real)
    requires d > 0.0
    ensures d / d == 1.0
  {
    assert d / d * d == d * 1.0;
  }

  /** At a fixed scale, the local point of a screen point fixes the position. */
  lemma LocalDeterminesPosition(p: Vec, pos1: Vec, pos2: Vec, s: real)
    requires s != 0.0 && ToLocal(p, pos1, s) == ToLocal(p, pos2, s)
    ensures pos1 == pos2
  {
    assert (p.x - pos1.x) / s * s == p.x - pos1.x;
    assert (p.x - pos2.x) / s * s == p.x - pos2.x;
    assert (p.y - pos1.y) / s * s == p.y - pos1.y;
    assert (p.y - pos2.y) / s * s == p.y - pos2.y;
  }
}

# Valetudo-UI map interaction and controls, modelled in Dafny

This project models the client-side core of a web interface for vacuum
robots running Valetudo firmware. It covers the map viewer and what happens
when the map is tapped, the robot command rules, and the pure data handling
around the robot state API. Each core source file has its own module:

- **Geometry** (`src/map/utils.ts`): splitting flat pixel arrays into x,y
  pairs (the generator loop is a method proved against the pure chunk list),
  the `bound` clamp, the Manhattan distance and the inclusive box test.
- **MapStage** (`src/map/MapStage.tsx`): the stage's scale and position and
  the touch refs form a class. Wheel zoom, pinch, one-finger pan, touch end
  and the persistent-scale nodes are methods over `real`. The pure helpers
  (fit scale, zoom about a point, pan bounds) are functions with lemmas.
- **Map and LegacyMap** (`src/map/Map.tsx`, `src/Map.tsx`) become
  MapView and LegacyMap: the area filter, the bounding box, stage size,
  scale and offset, and colour per layer.
- **Hit-testing** (RobotControlMap, GoLayer, SegmentsLayer): a tap becomes
  a grid cell through `floor(v / pixelSize)`. The cell is matched against a
  layer's box and its pixels, and the round trip is proved in both directions.
- **Interaction state machines**: the two providers
  (`RobotControlMapProvider.tsx`, `MapContextProvider.tsx`) and the three
  overlay layers are classes. Their handlers are methods over pure
  prev-to-next updaters (module Interaction).
- **Zones**: creation with the count limit (a tap inside an existing zone
  adds none),
  replace-by-id, the minimum-size resize, transform end and the
  four-corner serialisation.
- **Command rules** (ControlsSpeedDial, MapSpeedDial, BasicControls,
  ControlsBottomSheet). The two speed dials build their action lists by
  pushes, so they are methods proved equal to declarative lists. The
  others are decision functions.
- **Presets and selections** (IntensityControl, ControlsPage,
  CheckboxRecord, SegmentList, ZonePresets):
  - `sortPresets` is an insertion sort proved sorted and a permutation;
  - each slider is a class whose sync effect and handlers are methods;
  - the `Record<string, boolean>` of ticked checkboxes is an association
    list (module Records). Segments.tsx and ZonePresets.tsx share the same
    record logic, modelled once in CheckboxRecord.
- **API projection** (ApiUtils, Client, Hooks):
  - `getAttributes` returns a Result; a throw is its error case;
  - the pure part of `fetchState`, including the intensity fold;
  - the default status selector;
  - the optimistic preset update as a class standing for the query cache
    entry, with onMutate, onSettled and onError.
- **Development**: `isValidURL` is a hand-written recogniser. It is proved
  to accept exactly the strings that have a match of the regular expression
  at their start. `handleBaseUrlChange` stores the URL or null.

Modelling choices:
- JavaScript numbers are `real`, and grid cells are `int`.
- `undefined` is `Option.None`.
- A throw is `Result.Err`.
- Calls into code that is not part of this model are parameters:
  - `FourColorTheoremSolver` is a function from segment id to index, with
    no claim that the colouring is proper;
  - `pointClosestTo` is a parameter of the label computation;
  - `getDistance` is a parameter of the touch handlers;
  - `uuid()` is the fresh id passed to a tap;
  - the zone limit is an `Option<int>` parameter.
- The utilities `manhatten` and `inside` are not part of this model. They
  are taken to be `|ax - bx| + |ay - by|` and an inclusive box test.
- `getCenter` is taken to be the midpoint of the two touches.
- `replaceAttribute` is not part of this model either. It is taken to apply
  the updater to every `PresetSelectionState` of the type, keeping everything
  else in place.
- `Color(...).desaturate(0.7)` is a flag on the paint.

Three behaviours are modelled exactly as written, and the contracts state them:
- In ZonesLayer.tsx:109-110, `onTransformEnd` clamps only the width to at
  least 5. The height goes through a one-argument `Math.max`, so it has no
  minimum. See `ZonesLayer.ZoneShape.TransformEnd`.
- In MapEntityShape.tsx:50-51, the go-to target is drawn with the charger
  image.
- In hooks.ts:162, the optimistic update spreads a `level` key into the
  preset selection, whose preset is its `value` field (the mutation's
  variable is typed `PresetSelectionState['value']`, hooks.ts:142). The
  `value` stays as it was. See `Hooks.ReplaceAttribute` and "Findings".

## Model

| member | source | states |
|---|---|---|
| Geometry.Abs | src/map/layers/SegmentsLayer.tsx:109-110 | the absolute value used by the Manhattan distance is non-negative and is a or -a |
| Geometry.SliceTwo | src/map/utils.ts:3 | `arr.slice(i, i + 2)` holds two elements exactly when i + 1 is inside the array, one element otherwise, starting at arr[i] |
| Geometry.PairWiseArray | src/map/utils.ts:7 | every chunk holds one or two elements; its length, its chunks and the round trip are stated by PairWiseLength, PairWiseAt, EvenPairs, OddLastChunk and FlattenPairWise |
| Geometry.PairWise | src/map/utils.ts:1-5 | the generator loop stepping by two yields exactly the chunk list `PairWiseArray(arr)` |
| Geometry.PairWiseLength | src/map/utils.ts:7 | `pairWiseArray` has ceil(n/2) chunks |
| Geometry.PairWiseAt | src/map/utils.ts:1-7 | chunk k is the slice starting at 2k |
| Geometry.EvenPairs | src/map/utils.ts:1-7 | for an even-length array chunk i is the full pair `[arr[2i], arr[2i+1]]` |
| Geometry.OddLastChunk | src/map/utils.ts:1-7 | for an odd-length array the last chunk holds a single element despite the `[T, T]` cast |
| Geometry.FlattenPairWise | src/map/utils.ts:1-7 | concatenating the chunks gives back the array, for every length |
| Geometry.Bound | src/map/utils.ts:9-10 | `bound` lies in [min, max] when min <= max, leaves values already inside unchanged, gives max when min > max and clamps to the nearer end otherwise |
| Geometry.BoundIdempotent | src/map/utils.ts:9-10 | clamping twice is clamping once |
| Geometry.Manhattan | src/map/layers/SegmentsLayer.tsx:109-110 | the Manhattan distance is non-negative and is zero exactly for equal points |
| MapModel.CellOf | src/map/map-controls/RobotControlMap.tsx:139-140 | `Math.floor(v / pixelSize)` is the cell whose square [c*p, (c+1)*p) contains v |
| MapModel.CellBounds | src/map/map-controls/RobotControlMap.tsx:139-140 | the floor of v / p brackets v between c*p and (c+1)*p |
| MapModel.CellOfIff | src/map/map-controls/RobotControlMap.tsx:139-140 | a coordinate resolves to cell c exactly when it lies in c's square (both directions) |
| MapModel.HasPixelIff | src/map/map-controls/RobotControlMap.tsx:150 | the `pairWiseArray(pixels).some(...)` test holds exactly when one of the complete x,y pairs is the cell; a trailing single value never matches |
| MapModel.SomePixelAtZeroIff | src/map/layers/SegmentsLayer.tsx:109-110 | a pixel at Manhattan distance 0 is exactly a pixel equal to the cell |
| MapModel.BoundingBox | src/map/Map.tsx:47-58 | the min/max of the layer dimensions: None for no layers (`Math.min()` is Infinity), otherwise every layer lies inside and each bound is attained by some layer |
| MapView.DrawnLayers | src/map/Map.tsx:33 | exactly the layers with a positive area are kept |
| MapView.StageSize | src/map/Map.tsx:60-61 | measured from the stage offset, the stage ends MapPadding cells past the largest cell on both axes; its positivity is stated by StageSizePositive |
| MapView.StageOffset | src/map/Map.tsx:106-107 | for a positive pixel size the stage starts before the smallest cell on both axes |
| MapView.StageScale | src/map/Map.tsx:63-66 | the stage scale is the smaller container-to-stage ratio, so the stage fits the container on both axes |
| MapView.MapLayout | src/map/Map.tsx:47-66 | there is a stage layout exactly when some layer has a positive area (otherwise the bounds are infinite and nothing is drawn) (also lines 106-107) |
| MapView.ExtentOrdered | src/map/Map.tsx:47-58 | the frame of well-formed layers has min <= max on both axes |
| MapView.StageSizePositive | src/map/Map.tsx:60-61 | the stage width and height are positive for a positive pixel size |
| MapView.AxisPadding | src/map/Map.tsx:60-61 | on one axis every cell of the frame lies at least MapPadding cells from both stage edges (also lines 27, 106-107) |
| MapView.FramePadding | src/map/Map.tsx:60-61 | every cell of the frame lies at least MapPadding cells inside the stage on both axes (also lines 27, 106-107) |
| MapView.DrawnLayerInsideFrame | src/map/Map.tsx:47-61 | every cell of every drawn layer is inside the stage, padded by MapPadding (also lines 33, 106-107) |
| MapView.LayerColor | src/map/Map.tsx:68-97 | floor is free, wall is occupied, a segment takes the solver's entry of the four segment colours or the fallback when it has no id or the index is outside |
| MapView.ScaledPixels | src/map/Map.tsx:118 | every pixel value is multiplied by the pixel size, length kept |
| MapView.ScaledPixelCell | src/map/Map.tsx:118 | scaling a cell to map pixels and taking the cell under it gives the cell back |
| MapStage.FitScale | src/map/MapStage.tsx:90-92 | the fit scale fits the map within the padded container on both axes and is tight on one |
| MapStage.StageOffset | src/map/MapStage.tsx:311-312 | the stage offset is shifted by exactly padding / scale |
| MapStage.VisualScale | src/map/MapStage.tsx:48-52 | the node's on-screen scale is the stage scale clamped by whichever of minimumScale / maximumScale the node declares |
| MapStage.NodeScale | src/map/MapStage.tsx:38-54 | a node found by `stage.find` (defined minimum or truthy maximum) gets the local scale that gives its visual scale; any other node keeps its scale |
| MapStage.ZoomedScale | src/map/MapStage.tsx:135-139 | the new scale is the product clamped to [fit, fit * ScaleBound], unchanged when already inside |
| MapStage.ZoomedPosition | src/map/MapStage.tsx:127-147 | the map point that was under `center` is under `center + centerDelta` after the zoom |
| MapStage.ZoomAboutPoint | src/map/MapStage.tsx:120-154 | with no centre movement the map point under the cursor stays under the cursor, and the new scale is positive |
| MapStage.WheelScaleDelta | src/map/MapStage.tsx:172 | scrolling up zooms in, scrolling down zooms out, zero leaves the scale alone |
| MapStage.AxisBound | src/map/MapStage.tsx:184-194 | `calculateBoundaries` clamps the position between the lower and upper pan bound of its axis |
| MapStage.LocalDeterminesPosition | src/map/MapStage.tsx:130-133 | at a fixed scale the local point of a screen point determines the stage position |
| MapStage.Stage.RenderedOffset | src/map/MapStage.tsx:311-312 | the stage is rendered at the caller's offset less the padding in map units, so the padding shows as `padding` screen pixels on both axes |
| MapStage.Stage.constructor | src/map/MapStage.tsx:74-118 | mounting sets the fit scale at the origin, gives persistent nodes their scale and empties the gesture refs |
| MapStage.Stage.ScalePersistentNodes | src/map/MapStage.tsx:38-55 | every persistent node gets its local scale, the others keep theirs |
| MapStage.Stage.Redraw | src/map/MapStage.tsx:97-104 | `redraw()` re-applies the persistent scales and changes nothing else |
| MapStage.Stage.Resize | src/map/MapStage.tsx:90-92 | the container size is stored; when the fit scale changed, the scale becomes the new fit scale and every node gets its scale for it; otherwise the scale and every node scale stay; position and refs are kept (also lines 110-118) |
| MapStage.Stage.ScaleStage | src/map/MapStage.tsx:120-154 | the scale becomes the clamped product and the map point under the centre moves to centre + centreDelta; persistent nodes are rescaled and the others keep their scale; container and refs are kept |
| MapStage.Stage.HandleScroll | src/map/MapStage.tsx:156-176 | a prevented wheel event changes neither scale, position nor any node scale; otherwise the stage zooms by the wheel factor about the cursor (the origin when there is none), clamped to the fit scale of the unchanged container, and the nodes are rescaled; the refs are kept |
| MapStage.Stage.DragBound | src/map/MapStage.tsx:195-199 | the bounded position is a fixed point of the per-axis bound: a position already inside the bounds is not moved again |
| MapStage.Stage.HandleOneTouch | src/map/MapStage.tsx:204-223 | the first move records the anchor only; later moves pan by the finger's delta through the pan bound |
| MapStage.Stage.HandleTwoTouches | src/map/MapStage.tsx:225-250 | a pinch zooms by dist / lastDist (the first move uses dist for both) about the last centre, moves by the centre's delta, rescales the nodes and records the new centre and distance; the very first pinch move keeps scale and position; the container and the pan anchor are kept |
| MapStage.Stage.HandleTouchMove | src/map/MapStage.tsx:252-278 | one finger pans: the first move records the anchor, later ones move the position through the pan bound, with scale, pinch refs and node scales unchanged; two fingers pinch about the last midpoint exactly as HandleTwoTouches; a prevented event or another finger count changes nothing |
| MapStage.Stage.HandleTouchEnd | src/map/MapStage.tsx:280-294 | the distance is reset; the event is forwarded exactly when no pan or pinch was in progress, and both centres are cleared; scale, position and container are kept |
| Interaction.AvailableModes | src/map/map-controls/RobotControlMapProvider.tsx:54-64 | each mode is listed exactly when its capability is supported, in the order go, segments, zones |
| Interaction.NextSelectedLayer | src/map/map-controls/RobotControlMapProvider.tsx:98-100 | the layer effect selects the first mode from "no mode" and clears a selected mode |
| Interaction.SelectedLayerAlternates | src/map/map-controls/RobotControlMapProvider.tsx:98-100 | two list changes in a row starting from "no mode" end at "no mode" |
| Interaction.ToggleSegment | src/map/map-controls/RobotControlMapProvider.tsx:85-91 | a selected id is removed and an unselected id appended; other ids are kept |
| Interaction.ToggleNoDuplicates | src/map/map-controls/RobotControlMapProvider.tsx:85-91 | toggling keeps a duplicate-free selection duplicate-free |
| Interaction.ToggleTwice | src/map/map-controls/RobotControlMapProvider.tsx:85-91 | toggling an unselected id twice gives back the selection |
| Interaction.NextGoPointNear | src/map/map-controls/RobotControlMapProvider.tsx:72-77 | a tap within Manhattan distance 30 of the go-to point clears it, any other tap moves it there |
| Interaction.NextGoPointExact | src/map/MapContextProvider.tsx:68-72 | a tap on exactly the go-to point clears it, any other tap moves it there |
| Interaction.SecondTapClears | src/map/MapContextProvider.tsx:68-72 | in both providers a second tap on the same point undoes the first |
| RobotControlMapProvider.RobotMapLayers.constructor | src/map/map-controls/RobotControlMapProvider.tsx:44-64 | mounting lists the available modes, selects the first, and starts with no go-to point and no segments (also lines 98-100) |
| RobotControlMapProvider.RobotMapLayers.HandleMapInteraction | src/map/map-controls/RobotControlMapProvider.tsx:66-96 | go mode updates the go-to point, segments mode toggles the tapped segment, other modes and a missing id change nothing |
| RobotControlMapProvider.RobotMapLayers.HandleClear | src/map/map-controls/RobotControlMapProvider.tsx:102-105 | the go-to point and the selected segments are emptied, the mode is kept |
| RobotControlMapProvider.RobotMapLayers.HandleSelectLayer | src/map/map-controls/RobotControlMapProvider.tsx:107-115 | the mode is selected and the selection state cleared |
| RobotControlMapProvider.RobotMapLayers.SetCapabilities | src/map/map-controls/RobotControlMapProvider.tsx:54-64 | a changed mode list re-runs the layer effect; an unchanged one keeps the selected mode (also lines 98-100) |
| MapContextProvider.MapContext.constructor | src/map/MapContextProvider.tsx:42-60 | mounting lists the available modes, selects the first, and starts with no go-to point and no segments (also lines 93-95) |
| MapContextProvider.MapContext.HandleMapInteraction | src/map/MapContextProvider.tsx:62-91 | go mode updates the go-to point; segments mode toggles the layer's id only for a segment layer with an id; anything else changes nothing |
| MapContextProvider.MapContext.HandleClear | src/map/MapContextProvider.tsx:97-100 | the go-to point and the selected segments are emptied, the mode is kept |
| MapContextProvider.MapContext.HandleSelectLayer | src/map/MapContextProvider.tsx:102-108 | the mode is selected and the selection state cleared |
| MapContextProvider.MapContext.SetCapabilities | src/map/MapContextProvider.tsx:50-60 | a changed mode list re-runs the layer effect; an unchanged one keeps the selected mode (also lines 93-95) |
| RobotControlMap.SegmentBase | src/map/map-controls/RobotControlMap.tsx:51-59 | a segment takes the solver's palette entry, or the last entry when it has no id or the index falls outside |
| RobotControlMap.LayerPaint | src/map/map-controls/RobotControlMap.tsx:42-69 | floor and wall take their theme colour; a segment is desaturated exactly when it has an id, segments mode is on and it is not selected |
| RobotControlMap.ToggleFlipsDesaturation | src/map/map-controls/RobotControlMap.tsx:60-66 | in segments mode toggling a segment flips whether it is drawn desaturated |
| RobotControlMap.RenderLayers | src/map/map-controls/RobotControlMap.tsx:71-84 | one render layer per input layer, in order, with the segment id (or type name) as id, the layer box and the layer's paint |
| RobotControlMap.LabelOf | src/map/map-controls/RobotControlMap.tsx:98-110 | the label text is the name, else the segment id, else "?"; the icon shows exactly for an active segment; the position is the chosen pixel scaled by the pixel size |
| RobotControlMap.Labels | src/map/map-controls/RobotControlMap.tsx:94-113 | one label per segment layer, in layer order |
| RobotControlMap.LabelsCoverSegments | src/map/map-controls/RobotControlMap.tsx:96-97 | every segment layer is labelled and no other layer is |
| RobotControlMap.DrawnEntities | src/map/map-controls/RobotControlMap.tsx:115-134 | every entity is drawn in order, followed by the go-to marker exactly when a go-to point is set (also line 162) |
| RobotControlMap.TapSegment | src/map/map-controls/RobotControlMap.tsx:138-151 | the result is the first segment layer whose box and pixels cover the tapped cell, None when no segment layer does |
| RobotControlMap.HandleClick | src/map/map-controls/RobotControlMap.tsx:136-156 | the unrounded position goes out with the found segment's id, undefined when none is found |
| RobotControlMap.PixelUnderTapIsCell | src/map/map-controls/RobotControlMap.tsx:139-150 | a pixel whose drawn square holds the tap is exactly the tapped cell |
| RobotControlMap.CoversTapIff | src/map/map-controls/RobotControlMap.tsx:139-150 | the hit test round trip: a layer matches the tap exactly when the tap lies in the drawn square of one of its in-box pixels |
| SegmentsLayer.TappedSegment | src/map/layers/SegmentsLayer.tsx:100-113 | the first segment layer with a pixel at distance 0 from the tapped cell, None when there is none; the layer's box is not consulted |
| SegmentsLayer.SegmentsLayerState.constructor | src/map/layers/SegmentsLayer.tsx:89 | no segment is selected at first |
| SegmentsLayer.SegmentsLayerState.HandleClear | src/map/layers/SegmentsLayer.tsx:94-96 | the selection is emptied |
| SegmentsLayer.SegmentsLayerState.HandleClick | src/map/layers/SegmentsLayer.tsx:98-127 | a tap on a segment with an id toggles that id; a tap elsewhere or on a segment without an id changes nothing |
| SegmentsLayer.ColoredLayers | src/map/layers/SegmentsLayer.tsx:129-137 | one layer per layer, in order; a selected layer keeps its colour and every other layer (floor and walls included) is desaturated |
| SegmentsLayer.CleanRequest | src/map/layers/SegmentsLayer.tsx:31-40 | the clean mutation is sent exactly when a segment is selected and the robot is idle or docked, with the selection as given |
| GoLayer.OnMap | src/map/layers/GoLayer.tsx:107-118 | a tap is on the map exactly when some layer other than a wall has a pixel at the tapped cell |
| GoLayer.GoLayerState.constructor | src/map/layers/GoLayer.tsx:90 | there is no go-to point at first |
| GoLayer.GoLayerState.HandleClear | src/map/layers/GoLayer.tsx:96-98 | the go-to point is cleared |
| GoLayer.GoLayerState.HandleClick | src/map/layers/GoLayer.tsx:100-123 | a tap on the map sets the go-to point to the unrounded position; a tap outside the map changes nothing |
| GoLayer.GoRequest | src/map/layers/GoLayer.tsx:33-41 | the go-to mutation is sent exactly when a point is set and the robot is idle or docked, with that point |
| GoLayer.GoDisabled | src/map/layers/GoLayer.tsx:48 | the go button is disabled exactly when a command is in flight or a click would send nothing |
| GoLayer.GoEnabledIffSends | src/map/layers/GoLayer.tsx:33-48 | the Go button is enabled exactly when nothing is loading and a click would send the point |
| ZonesLayer.NewZone | src/map/layers/ZonesLayer.tsx:289-301 | a new zone is 100 by 100 with one iteration, centred on the tap, and contains the tap |
| ZonesLayer.ReplaceById | src/map/layers/ZonesLayer.tsx:318-322 | the zone with the changed zone's id is replaced and every other zone kept, in place |
| ZonesLayer.ReplaceKeepsIds | src/map/layers/ZonesLayer.tsx:318-322 | replacing keeps the list of ids |
| ZonesLayer.ReplaceIdempotent | src/map/layers/ZonesLayer.tsx:318-322 | replacing twice with the same zone is replacing once |
| ZonesLayer.ReplaceAbsent | src/map/layers/ZonesLayer.tsx:318-322 | a change for an id that is not present leaves the list unchanged |
| ZonesLayer.ZonesLayerState.constructor | src/map/layers/ZonesLayer.tsx:242-243 | no zones and no selected zone at first |
| ZonesLayer.ZonesLayerState.HandleClear | src/map/layers/ZonesLayer.tsx:254-257 | the zones and the selected id are cleared |
| ZonesLayer.ZonesLayerState.HandleClick | src/map/layers/ZonesLayer.tsx:259-305 | nothing happens while the limit is unknown; at the limit only the notice shows; a tap inside an existing zone changes nothing; otherwise a new zone is appended and selected; the count never exceeds the limit and ids stay distinct |
| ZonesLayer.ZonesLayerState.HandleSelect | src/map/layers/ZonesLayer.tsx:315-317 | selecting a zone records its id and keeps the zones |
| ZonesLayer.ZonesLayerState.HandleChange | src/map/layers/ZonesLayer.tsx:318-322 | a changed zone replaces the zone with its id; ids and the selection are kept |
| ZonesLayer.DraggedZone | src/map/layers/ZonesLayer.tsx:80-88 | a dropped zone keeps its id, size and iterations and takes the drop position |
| ZonesLayer.BoundBox | src/map/layers/ZonesLayer.tsx:118-124 | the new box is accepted exactly when it is at least five map pixels in both directions (or equals the old box); otherwise the old box is kept |
| ZonesLayer.BoundBoxKeepsMinimum | src/map/layers/ZonesLayer.tsx:118-124 | a box of at least the minimum size stays at least the minimum size through any resize |
| ZonesLayer.ZoneShape.constructor | src/map/layers/ZonesLayer.tsx:68-71 | the rectangle starts at the zone's position and size with unit scale |
| ZonesLayer.ZoneShape.TransformEnd | src/map/layers/ZonesLayer.tsx:89-112 | the scale is reset to 1 and the zone gets the node's position, width scaled and at least 5, height scaled with no minimum |
| ZonesLayer.ToPoints | src/map/layers/ZonesLayer.tsx:152-172 | the corners A, B, C, D are the top-left, top-right, bottom-right and bottom-left of the zone, iterations kept |
| ZonesLayer.PointsRoundTrip | src/map/layers/ZonesLayer.tsx:152-172 | the zone can be read back from its corners: only the id is lost |
| ZonesLayer.PointsAreRectangle | src/map/layers/ZonesLayer.tsx:152-172 | the corners form an axis-aligned rectangle |
| ZonesLayer.CleanRequest | src/map/layers/ZonesLayer.tsx:143-174 | the clean mutation is sent exactly when there is a zone and the robot is idle or docked, with every zone's corners in order |
| ZonesLayer.ShownEntities | src/map/layers/ZonesLayer.tsx:221-225 | exactly the no-go areas, no-mop areas and virtual walls are drawn besides the zones (also lines 247-252) |
| LegacyMap.FillColor | src/Map.tsx:49-53 | wall, floor and segment take their fixed colours, any other type name is red (also line 79) |
| LegacyMap.Layout | src/Map.tsx:96-114 | no stage without layers; otherwise the frame is the bounding box of all layers, the offset is padded by MapPadding and the scale makes the stage exactly as wide as the container |
| LegacyMap.EmptyLayersAreFramed | src/Map.tsx:96-99 | every layer, area or not, lies inside the frame |
| MapEntityShape.EntityShape | src/map/MapEntityShape.tsx:28-72 | robot, charger and go-to target are images at the first point with minimum scale 1 and the entity's angle (only the robot uses the robot image); the other known types are lines of the entity's points with the pixel size as stroke, closed exactly for areas, dashed exactly for the predicted path, in the path style for the two paths, the no-go style for virtual walls and no-go areas, the no-mop style for no-mop areas and the active style for active zones; unknown types draw nothing |
| ControlsSpeedDial.BuildActions | src/controls/ControlsSpeedDial.tsx:49-126 | the pushes build exactly the declarative action list `DialActions` |
| ControlsSpeedDial.DialActionsOrder | src/controls/ControlsSpeedDial.tsx:52-123 | no actions before the status loads, in the error state or without basic control; Resume and Stop first for a resumable flag, else Start when idle or docked, else Stop; Pause exactly while cleaning or returning; Home exactly when idle, and last |
| ControlsSpeedDial.DialNamesDistinct | src/controls/ControlsSpeedDial.tsx:49-126 | the action names, used as list keys, are distinct, and there are at most four actions (also lines 165-173) |
| ControlsSpeedDial.Render | src/controls/ControlsSpeedDial.tsx:128-176 | nothing for no action, a single button for one action, the dial with every action otherwise |
| ControlsSpeedDial.DialState.constructor | src/controls/ControlsSpeedDial.tsx:39 | the dial starts closed |
| ControlsSpeedDial.DialState.HandleOpen | src/controls/ControlsSpeedDial.tsx:41-43 | the dial opens |
| ControlsSpeedDial.DialState.HandleClose | src/controls/ControlsSpeedDial.tsx:45-47 | the dial closes |
| ControlsSpeedDial.DialState.Choose | src/controls/ControlsSpeedDial.tsx:68-71 | choosing an entry sends its command and closes the dial |
| MapSpeedDial.StatusOf | src/map/MapSpeedDial.tsx:39-45 | the first `StatusState` attribute; undefined before the state loads or when there is none |
| MapSpeedDial.BuildActions | src/map/MapSpeedDial.tsx:57-121 | the pushes build exactly the declarative action list `MapDialActions` |
| MapSpeedDial.MapDialCommands | src/map/MapSpeedDial.tsx:60-118 | Resume exactly for a resumable flag, Start exactly when not resumable and idle or docked, Pause and Stop together exactly while cleaning, returning or moving |
| MapSpeedDial.MapDialHome | src/map/MapSpeedDial.tsx:60-118 | Home exactly when basic control and a status that is neither docked nor returning, and then it is last |
| MapSpeedDial.MapDialActionsOrder | src/map/MapSpeedDial.tsx:60-118 | nothing without basic control or status; Resume exactly for a resumable flag, Start exactly when not resumable and idle or docked; Pause and Stop together exactly while cleaning, returning or moving; Home exactly when neither docked nor returning, and last |
| MapSpeedDial.MapDialNamesDistinct | src/map/MapSpeedDial.tsx:57-121 | the action names, used as list keys, are distinct (also lines 138-146) |
| MapSpeedDial.MapRender | src/map/MapSpeedDial.tsx:123-149 | nothing for no action, otherwise the dial with every action |
| BasicControls.PanelFor | src/controls/BasicControls.tsx:25-80 | an error panel without a status; otherwise Start, Pause, Stop and Home in that order, each enabled exactly in its states and never while a command is in flight, and Start reads Resume exactly for a resumable flag |
| BasicControls.ButtonsCoverStates | src/controls/BasicControls.tsx:25-26 | Start and Pause are never enabled together, and with nothing in flight some button is always enabled (also lines 50-75) |
| ControlsBottomSheet.ActionButtonFor | src/controls/ControlsBottomSheet.tsx:52-108 | no button without basic control or state, a spinner while loading, else Start when docked, Stop while cleaning, moving or returning, Home in every other state, never Pause (also lines 125) |
| IntensityControl.Order | src/controls/IntensityControl.tsx:42 | `order.indexOf(p)`: a rank from 0 (off) to 6 (turbo), and -1 exactly for custom |
| IntensityControl.OrderInjective | src/controls/IntensityControl.tsx:42 | no two presets share a rank, so sorting by rank has one possible result |
| IntensityControl.Insert | src/controls/IntensityControl.tsx:43-44 | one insertion step of the rank sort adds exactly one element; its multiset and sortedness are stated by InsertMultiset, InsertElements and InsertSorted |
| IntensityControl.SortPresets | src/controls/IntensityControl.tsx:43-44 | the sorted copy has the input's length; that it is sorted by rank and a permutation is stated by SortPresetsCorrect |
| IntensityControl.InsertMultiset | src/controls/IntensityControl.tsx:43-44 | inserting one preset adds exactly that preset to the multiset |
| IntensityControl.InsertElements | src/controls/IntensityControl.tsx:43-44 | insertion brings in no element besides the inserted one |
| IntensityControl.InsertSorted | src/controls/IntensityControl.tsx:43-44 | inserting into a list sorted by rank keeps it sorted |
| IntensityControl.SortPresetsCorrect | src/controls/IntensityControl.tsx:43-44 | `sortPresets` returns the presets sorted by rank and is a permutation of its input |
| IntensityControl.FilteredPresets | src/controls/IntensityControl.tsx:59-67 | the offered presets are sorted by rank, never custom, and are exactly the reported presets other than custom, each as often as reported (none while the presets are not loaded) |
| IntensityControl.SliderIndex | src/controls/IntensityControl.tsx:75-77 | the slider index is the level's position among the presets, or 0 when the level is not offered |
| IntensityControl.SliderRoundTrip | src/controls/IntensityControl.tsx:75-77 | committing at the index shown for a level sends that level back, and with distinct presets the index of preset v is v |
| IntensityControl.Marks | src/controls/IntensityControl.tsx:80-89 | one mark per preset, its value the index and its label the preset at that index |
| IntensityControl.IntensitySlider.constructor | src/controls/IntensityControl.tsx:68 | the slider starts at 0 |
| IntensityControl.IntensitySlider.SyncToLevel | src/controls/IntensityControl.tsx:70-78 | an unknown intensity leaves the slider alone; otherwise the slider moves to the level's index |
| IntensityControl.IntensitySlider.HandleChange | src/controls/IntensityControl.tsx:91-100 | a single number moves the slider; a range is ignored |
| IntensityControl.IntensitySlider.HandleCommit | src/controls/IntensityControl.tsx:101-111 | a range is ignored; a number moves the slider and sends the preset at that index, undefined when out of range |
| IntensityControl.IntensityBody | src/controls/IntensityControl.tsx:113-147 | a spinner exactly while loading, an error when loading failed or the intensity is unknown, otherwise a slider at the slider value whose marks carry exactly the offered presets |
| ControlsPage.HasOff | src/controls/ControlsPage.tsx:27 | the switch is shown only for loaded presets that list `off`, and then the slider has fewer stops than there are reported presets |
| ControlsPage.IsLevel | src/controls/ControlsPage.tsx:28-31 | a fan level is neither off nor custom |
| ControlsPage.FanPresets | src/controls/ControlsPage.tsx:28-31 | the slider's presets are the reported ones without off and custom, in the reported order; undefined while not loaded |
| ControlsPage.FanSliderIndex | src/controls/ControlsPage.tsx:34-47 | off puts the slider at 0; another level at its index, or 0 when it is not offered |
| ControlsPage.Toggle | src/controls/ControlsPage.tsx:60-68 | as written: nothing is sent before the presets load; switching off sends off; switching on sends the first reported preset, whatever it is |
| ControlsPage.ToggleOnCanSendOff | src/controls/ControlsPage.tsx:60-68 | with presets [off, low], switching the fan on sends off |
| ControlsPage.ToggleFixed | src/controls/ControlsPage.tsx:60-68 | the toggle with switching on sending the first fan level |
| ControlsPage.ToggleOnSendsLevel | src/controls/ControlsPage.tsx:60-68 | with the corrected toggle, switching on never sends off or custom, and sends a level whenever one is reported |
| ControlsPage.FanSpeedSlider.constructor | src/controls/ControlsPage.tsx:32 | the slider starts at 0 |
| ControlsPage.FanSpeedSlider.SyncToLevel | src/controls/ControlsPage.tsx:34-47 | an unknown fan speed leaves the slider alone; otherwise the slider moves to the level's index (0 for off) |
| ControlsPage.FanSpeedSlider.HandleChange | src/controls/ControlsPage.tsx:70-79 | a single number moves the slider; a range is ignored |
| ControlsPage.FanSpeedSlider.HandleCommit | src/controls/ControlsPage.tsx:80-91 | a range or unloaded presets are ignored; a number moves the slider and sends the level at that index |
| ControlsPage.CommitAtSyncedIndex | src/controls/ControlsPage.tsx:34-47 | committing at the index the effect shows for a level sends that level back (also lines 80-91) |
| ControlsPage.FanSpeedView | src/controls/ControlsPage.tsx:93-151 | a spinner exactly while loading, an error when loading failed or the fan speed or presets are unknown; otherwise the switch shows exactly when off is a preset, is on exactly when the level is not off, and the slider is disabled exactly when the level is off |
| ControlsPage.SwitchMatchesSlider | src/controls/ControlsPage.tsx:125-146 | the switch is on exactly when the slider is enabled |
| CheckboxRecord.Checked | src/controls/Segments.tsx:107 | `selected[id] ?? false` is true exactly when the record holds true for the id |
| CheckboxRecord.SelectedIds | src/controls/Segments.tsx:57-59 | the ids whose entry is true, and only those |
| CheckboxRecord.SelectedIffChecked | src/controls/Segments.tsx:55-61 | with one entry per id, an id is sent exactly when its box is ticked |
| CheckboxRecord.SelectedUnique | src/controls/Segments.tsx:55-61 | with one entry per id, no id is sent twice |
| CheckboxRecord.SelectedAfterNewEntry | src/controls/Segments.tsx:42-50 | ticking a box not yet in the record appends its id to what clean sends; an unticked new box adds nothing (in insertion order; JavaScript would list integer-like keys first, see "Left out") |
| CheckboxRecord.NoneSelected | src/controls/Segments.tsx:67 | `every((val) => !val)`: no entry is true, so it holds for the empty record |
| CheckboxRecord.NoneSelectedIff | src/controls/Segments.tsx:55-67 | nothing is ticked exactly when clean would send no id |
| CheckboxRecord.CleanDisabled | src/controls/Segments.tsx:126-130 | the clean button is enabled exactly when some box is ticked and the robot is idle or docked |
| CheckboxRecord.EnabledCleanSendsIds | src/controls/Segments.tsx:126-131 | an enabled clean button always sends at least one id |
| CheckboxRecord.Rows | src/controls/Segments.tsx:102-114 | one checkbox per item, in order, with its id, label and ticked state |
| CheckboxRecord.CleanSendsTickedRows | src/controls/Segments.tsx:55-61 | when every ticked id is listed, clean sends exactly the ids of the ticked rows (also lines 102-114) |
| CheckboxRecord.Selection.constructor | src/controls/Segments.tsx:39 | the record starts empty |
| CheckboxRecord.Selection.HandleCheckboxChange | src/controls/Segments.tsx:42-50 | the record takes the new state for the id (overwritten in place or appended) and keeps one entry per id |
| CheckboxRecord.Selection.HandleClean | src/controls/Segments.tsx:55-61 | the ids handed to the clean mutation are the ticked ones in entry order, exactly the ticked ones, each once |
| SegmentList.NamedSegments | src/controls/Segments.tsx:63-66 | the segments with a name, in the robot's order; undefined while not loaded |
| SegmentList.SegmentRows | src/controls/Segments.tsx:102-114 | every checkbox belongs to a named segment and carries its name, and every named segment has its checkbox |
| ZonePresets.PresetRows | src/controls/ZonePresets.tsx:97-109 | one checkbox per preset, in order, with its id, name and ticked state; none while the presets are not loaded |
| Seqs.Filter | src/api/utils.ts:7-9 | `filter` keeps exactly the elements satisfying the test, in order |
| Seqs.FilterAppend | src/api/utils.ts:7-9 | filtering distributes over concatenation, so the relative order is kept |
| Seqs.FilterAll | src/api/utils.ts:7-9 | filtering with a test every element passes changes nothing |
| Seqs.At | src/controls/IntensityControl.tsx:107 | indexing is defined exactly for an index inside the array and then gives that element (also `segment[i]` at src/map/map-controls/RobotControlMap.tsx:53-59 and `points[0]`, `points[1]` at src/map/MapEntityShape.tsx:30-31) |
| Seqs.Find | src/map/MapSpeedDial.tsx:41-43 | `find` returns the first element satisfying the test, undefined exactly when none does |
| Seqs.FindSame | src/map/MapSpeedDial.tsx:41-43 | two tests that agree on every element find the same element |
| Seqs.FindFilter | src/map/map-controls/RobotControlMap.tsx:142-151 | `filter(f).find(g)` finds what one `find` with both tests finds |
| Seqs.FirstOfFilter | src/api/hooks.ts:104 | the head of a non-empty `filter(f)` is the first element satisfying f |
| Seqs.IndexOf | src/controls/IntensityControl.tsx:75 | `indexOf` is the first position of the element, -1 exactly when it is absent |
| Seqs.Remove | src/map/map-controls/RobotControlMapProvider.tsx:87 | `filter((v) => v !== x)` removes every occurrence of x and keeps every other element |
| Seqs.RemoveAbsent | src/map/map-controls/RobotControlMapProvider.tsx:87 | removing an element that is not present changes nothing |
| Seqs.RemoveAppend | src/map/map-controls/RobotControlMapProvider.tsx:87 | removal distributes over concatenation |
| Seqs.RemoveNoDuplicates | src/map/map-controls/RobotControlMapProvider.tsx:87 | removal keeps a duplicate-free list duplicate-free |
| Seqs.Any | src/map/layers/ZonesLayer.tsx:279-284 | `some` holds exactly when some element satisfies the test |
| Seqs.All | src/controls/Segments.tsx:67 | `every` holds exactly when all elements satisfy the test, so it holds for an empty array |
| Seqs.MinOf | src/map/Map.tsx:47-49 | `Math.min(...xs)` of a non-empty array is an element no larger than any other |
| Seqs.MaxOf | src/map/Map.tsx:50-52 | `Math.max(...xs)` of a non-empty array is an element no smaller than any other |
| Records.Keys | src/controls/Segments.tsx:57 | the keys of a record, one per entry, in entry order |
| Records.UniqueTail | src/controls/Segments.tsx:44-47 | after the first entry of a record with distinct keys, the keys stay distinct and do not repeat the first key |
| Records.Lookup | src/controls/Segments.tsx:107 | `record[key]` is undefined exactly when the key is absent, otherwise the value of the entry with that key |
| Records.Set | src/controls/Segments.tsx:44-47 | `{...prev, [key]: value}` keeps the key order, appending the key when it is new (in insertion order; JavaScript would list integer-like keys first, see "Left out") |
| Records.SetLookup | src/controls/Segments.tsx:44-47 | after the update the key reads the new value and every other key reads what it read before |
| Records.SetUnique | src/controls/Segments.tsx:44-47 | the update keeps the keys distinct |
| ApiUtils.GetAttributes | src/api/utils.ts:3-16 | the attributes of the class in their order, non-empty; an error naming the class exactly when there is none |
| ApiUtils.GetAttributesFirst | src/api/utils.ts:7-15 | element 0 of the result is the first attribute of that class in the input |
| Client.LastOfType | src/api/client.ts:41-47 | the reference meaning of the reduce: the entry of the last intensity attribute of a type, undefined exactly when there is none |
| Client.FoldIntensity | src/api/client.ts:41-47 | the reduce keeps the accumulator's keys in front, in order, and has a key for every folded attribute's type; which entry each key reads is stated by FoldLastWins |
| Client.FoldLastWins | src/api/client.ts:41-47 | folding the intensity attributes leaves each type with the entry of its last attribute, or its earlier value when none follows |
| Client.FoldUnique | src/api/client.ts:41-47 | the fold keeps one entry per type |
| Client.LastOfTypeFilter | src/api/client.ts:36-39 | taking the intensity attributes first does not change which one is last for a type |
| Client.IntensityRecord | src/api/client.ts:36-47 | the intensity record has one entry per type, and each type maps to the entry of its last intensity attribute |
| Client.FetchState | src/api/client.ts:22-57 | a state exactly when a status, a battery and an intensity attribute all exist; otherwise the error names the first missing class in the order status, battery, intensity; the status and battery come from the first attribute of their class and the intensities from the last of each type |
| Hooks.RobotStatus | src/api/hooks.ts:102-113 | the first status attribute, or the error status with no flag when there is none |
| Hooks.RobotStatusAgrees | src/api/hooks.ts:103-110 | the selector agrees with the map dial's `find` of the status, defaulted |
| Hooks.CapabilityToPresetType | src/api/hooks.ts:128-134 | fan speed control maps to fan_speed and water usage control to water_grade, and only those |
| Hooks.CapabilityToPresetTypeBijective | src/api/hooks.ts:128-134 | the mapping is one-to-one and onto |
| Hooks.ReplaceAttribute | src/api/hooks.ts:155-164 | as written: every preset selection of the type gets a `level` key with the new preset and keeps its `value`; every other attribute stays, in place |
| Hooks.OptimisticValueUnchanged | src/api/hooks.ts:162 | a fan-speed selection of `low` updated to `high` still has the value `low`, although the cache entry changed |
| Hooks.ReplaceAttributeValue | src/api/hooks.ts:155-164 | the corrected updater (writing `value`) keeps the list length; its effect on each attribute is stated by ReplaceAttributeValueEffect |
| Hooks.ReplaceAttributeValueEffect | src/api/hooks.ts:155-164 | with the updater writing `value`, every selection of the type reads the new preset, other attributes are untouched, classes and places are kept, and the update is idempotent |
| Hooks.ReplaceAttributeEffect | src/api/hooks.ts:155-164 | the update keeps each attribute's class and place and every preset selection's `value`, and a second identical update changes nothing |
| Hooks.AttributeCache.constructor | src/api/hooks.ts:100-101 | the cache holds the given attributes and is not invalidated |
| Hooks.AttributeCache.OnMutate | src/api/hooks.ts:145-167 | with no cached attributes nothing changes and there is no context; otherwise the cache gets the replaced list and the context is the previous list |
| Hooks.AttributeCache.OnSettled | src/api/hooks.ts:168-170 | the attributes entry is invalidated and its value kept |
| Hooks.AttributeCache.OnError | src/api/hooks.ts:171-180 | with a context the previous list is restored exactly; without one nothing changes |
| Development.Run | src/development/index.tsx:12-14 | the length of the longest run of characters of one class (digits, or label characters) at the front |
| Development.LabelRun | src/development/index.tsx:12 | the length of the run of label characters at the front |
| Development.DomainScanSound | src/development/index.tsx:12 | when the domain scan accepts, a domain name starts the text |
| Development.DomainScanComplete | src/development/index.tsx:12 | when a domain name starts the text, the domain scan accepts |
| Development.DomainPrefixIff | src/development/index.tsx:12 | the text starts with a domain name exactly when some prefix of it matches the domain branch |
| Development.IpScanSound | src/development/index.tsx:13 | when the address scan accepts, four digit groups start the text |
| Development.IpScanComplete | src/development/index.tsx:13 | when four digit groups start the text, the address scan accepts |
| Development.IpPrefixIff | src/development/index.tsx:13 | the text starts with an address exactly when some prefix of it matches the address branch |
| Development.SchemeLength | src/development/index.tsx:11 | the scheme found at the front is 0, 7 or 8 characters long, and when it is not 0 that prefix spells http:// or https:// in any case |
| Development.SchemeUnique | src/development/index.tsx:11 | every prefix that is a scheme is the one found, so 0 is returned only when no prefix is a scheme |
| Development.HostPrefixScan | src/development/index.tsx:12-13 | the two scans together decide whether the text starts with a host |
| Development.ScanGivesValid | src/development/index.tsx:10-17 | a scheme and a host found by the scans are a match of the expression |
| Development.ValidGivesScan | src/development/index.tsx:10-17 | every match of the expression is found by the scheme and host scans |
| Development.ValidUrlScan | src/development/index.tsx:10-17 | the scheme and host scans decide the whole expression |
| Development.IsValidUrl | src/development/index.tsx:9-18 | the recogniser accepts exactly the strings with a match of the expression at their start |
| Development.SuffixClosed | src/development/index.tsx:10-17 | only the start is anchored: anything appended to an accepted string is accepted |
| Development.SchemeRequired | src/development/index.tsx:11 | an accepted string starts with http:// or https://, case-insensitively |
| Development.DotlessRejected | src/development/index.tsx:12-13 | a string without a dot is never accepted |
| Development.LocalhostRejected | src/development/index.tsx:12-13 | `http://localhost:8080` is rejected |
| Development.UnrangedAddressAccepted | src/development/index.tsx:13 | `http://999.999.999.999` is accepted: the groups are not range-checked |
| Development.DevControls.constructor | src/development/index.tsx:22 | the base URL starts as the one stored by an earlier session, or null when none is stored (the read of local storage is the `stored` parameter; also src/hooks/useLocalStorage.ts:7-15) |
| Development.DevControls.HandleBaseUrlChange | src/development/index.tsx:43-55 | an invalid input sets the base URL to null, a valid one stores it unchanged |

## Left out

- Network and caching: the axios requests, react-query's fetching, `cancelQueries` and the server-sent event subscriptions. Only the pure projections and the cache-entry updates are modelled.
- Mutation lifecycles: `mutate`, the `onSuccess` clearing and loading spinners. A dispatch is modelled as the value a handler sends, and the loading flags as inputs.
- Drawing: Konva stages and layers, `batchDraw`, Transformer attachment, `Pixels.tsx` and `ChipShape.tsx` scene functions. The stage is its scale and position; `stage.find` is a node's declared minimum and maximum scale.
- Image sizes and offsets in MapEntityShape.tsx, which depend on loaded images.
- GoLayer's marker rendering: GoLayer.tsx:125-136 is a presentational element drawn exactly when a point is set; RobotControlMap.DrawnEntities states the same rule for the map itself.
- The colour library: `desaturate(0.7)` is a flag, not a colour.
- The segment colour solver: it is a function parameter, and nothing is claimed about the colouring it produces.
- `pointClosestTo`, `getCenter`, `getDistance`, `manhatten`, `inside` and `replaceAttribute`: their code is not part of this model. They are parameters or the definitions stated above.
- `uuid()`: a fresh id is a parameter of the zone tap.
- JavaScript object key order (integer-like keys first): records keep insertion order.
- Floating point: arithmetic is exact over `real`. Rounding, Infinity and NaN are not modelled.
- MapStage.FitScale: requires a positive map width and height. JavaScript would produce Infinity or NaN for a zero size.
- MapModel.CellOf: requires a positive pixel size.
- MapView.ExtentOrdered: requires layer dimensions with min no larger than max, as the robot reports them.
- MapStage.Stage.HandleTwoTouches: requires a non-negative distance, positive unless a positive last distance is stored. A first pinch move at distance 0 divides 0 by 0 in the source and sets a NaN scale, which `real` cannot express.
- MapStage.Stage.HandleTouchMove: requires the same of a two-finger move, for the same reason.
- The development effect: it starts and stops the mock server, calls `setValetudoBaseURL` and invalidates queries. That is I/O. `useLocalStorage` persistence is a class field; the stored value read at start-up is the constructor's `stored` parameter, and writing it back to local storage is I/O.
- The capability gate around whole components: capabilities are boolean inputs of the rules that use them.
- The resize listener and `requestAnimationFrame` measuring in `src/Map.tsx`: the container width is an input.
- Presentation-only components: labels, layout, styling and the battery and status displays.

## Findings

| source | as written | input that shows it | evidently intended | confidence | as-written member | corrected member |
|---|---|---|---|---|---|---|
| src/api/hooks.ts:162 | the optimistic update `{ ...attribute, level }` adds a `level` key and leaves the preset selection's `value` unchanged | fan speed `low` cached, `high` chosen: the cached selection still has the value `low` until the refetch | the cached selection takes the new preset as its `value` | medium, not executed | Hooks.OptimisticValueUnchanged | Hooks.ReplaceAttributeValueEffect |
| src/controls/ControlsPage.tsx:60-68 | switching the fan on sends `presets[0]` from the unfiltered list | presets `[off, low]`, switch turned on: `off` is sent, so the fan stays off | switching on sends the first fan level, neither off nor custom | medium, not executed | ControlsPage.ToggleOnCanSendOff | ControlsPage.ToggleOnSendsLevel |

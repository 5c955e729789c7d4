/** The interaction-mode rules shared by the map-interaction providers and
    layers: the list of available modes, the selected-segment toggle, the
    go-to-point updates, and the reset of the selected mode when the
    available list changes. */
module Interaction {
  import opened Wrappers
  import opened Geometry
  import opened Seqs

  /** The map tools: `'go' | 'segments' | 'zones'`. */
  datatype Mode = GoMode | SegmentsMode | ZonesMode

  function Rank(m: Mode): nat
  {
    match m
    case GoMode => 0
    case SegmentsMode => 1
    case ZonesMode => 2
  }

  /** `[go ? 'go', segments ? 'segments', zones ? 'zones'].filter(defined)`:
      the supported modes, in the fixed order go, segments, zones. */
  function AvailableModes(goToLocation: bool, mapSegmentation: bool, zoneCleaning: bool): (r: seq<Mode>)
    ensures GoMode in r <==> goToLocation
    ensures SegmentsMode in r <==> mapSegmentation
    ensures ZonesMode in r <==> zoneCleaning
    ensures forall i, j :: 0 <= i < j < |r| ==> Rank(r[i]) < Rank(r[j])
  {
    (if goToLocation then [GoMode] else []) +
    (if mapSegmentation then [SegmentsMode] else []) +
    (if zoneCleaning then [ZonesMode] else [])
  }

  /** The effect run when the available list changes:
      `prev === undefined ? layers[0] : undefined`. It does NOT reset the
      mode to the first available one: a defined mode becomes undefined. */
  function NextSelectedLayer(prev: Option<Mode>, layers: seq<Mode>): (r: Option<Mode>)
    ensures prev.Some? ==> r == None
    ensures prev.None? && |layers| > 0 ==> r == Some(layers[0])
    ensures prev.None? && |layers| == 0 ==> r == None
  {
    if prev.None? && |layers| > 0 then Some(layers[0]) else None
  }

  /** Two list changes in a row from "no mode" give back "no mode". */
  lemma SelectedLayerAlternates(layers1: seq<Mode>, layers2: seq<Mode>)
    ensures NextSelectedLayer(NextSelectedLayer(None, layers1), layers2) ==
            (if |layers1| > 0 then None else NextSelectedLayer(None, layers2))
  {
  }

  // ---------------------------------------------------------------------
  // Segment selection
  // ---------------------------------------------------------------------

  /** The selected-segments updater: a present id is removed (every
      occurrence), an absent id is appended at the end. */
  function ToggleSegment(prev: seq<string>, id: string): (r: seq<string>)
    ensures id in r <==> id !in prev
    ensures forall x :: x in r && x != id ==> x in prev
    ensures forall x :: x in prev && x != id ==> x in r
    ensures id !in prev ==> r == prev + [id]
  {
    if id in prev then Remove(prev, id) else prev + [id]
  }

  /** Toggling keeps a duplicate-free selection duplicate-free. */
  lemma ToggleNoDuplicates(prev: seq<string>, id: string)
    requires NoDuplicates(prev)
    ensures NoDuplicates(ToggleSegment(prev, id))
  {
    if id in prev {
      RemoveNoDuplicates(prev, id);
    } else {
      var r := prev + [id];
      forall i, j | 0 <= i < j < |r| ensures r[i] != r[j] {
        if j == |prev| { assert r[i] in prev; }
      }
    }
  }

  /** Toggling an unselected id twice gives back the selection exactly. */
  lemma ToggleTwice(prev: seq<string>, id: string)
    requires id !in prev
    ensures ToggleSegment(ToggleSegment(prev, id), id) == prev
  {
    RemoveAppend(prev, [id], id);
    RemoveAbsent(prev, id);
    assert Remove([id], id) == [];
  }

  // ---------------------------------------------------------------------
  // Go-to point
  // ---------------------------------------------------------------------

  /** How close (Manhattan distance, map pixels) a tap must be to the
      current go-to point to clear it. */
  const GoToToggleDistance: real := 30.0

  /** The go-to updater of the map-controls provider: a tap within Manhattan
      distance 30 of the current point clears it, any other tap moves it. */
  function NextGoPointNear(prev: Option<Vec>, position: Vec): (r: Option<Vec>)
    ensures r.None? <==> prev.Some? && Manhattan(prev.value, position) < GoToToggleDistance
    ensures r.Some? ==> r.value == position
  {
    if prev.Some? && Manhattan(prev.value, position) < GoToToggleDistance then None else Some(position)
  }

  /** The go-to updater of the map-context provider: tapping exactly the
      stored point clears it, any other tap replaces it. */
  function NextGoPointExact(prev: Option<Vec>, position: Vec): (r: Option<Vec>)
    ensures r.None? <==> prev == Some(position)
    ensures r.Some? ==> r.value == position
  {
    if prev.Some? && prev.value.x == position.x && prev.value.y == position.y then None else Some(position)
  }

  /** A second tap on the same point clears the point the first tap set,
      under both updaters. */
  lemma SecondTapClears(prev: Option<Vec>, p: Vec)
    ensures NextGoPointNear(NextGoPointNear(prev, p), p) == (if NextGoPointNear(prev, p).None? then Some(p) else None)
    ensures NextGoPointExact(NextGoPointExact(prev, p), p) == (if NextGoPointExact(prev, p).None? then Some(p) else None)
  {
  }
}

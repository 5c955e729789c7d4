/** The query-cache side of the API hooks: the status selector with its
    default, and the optimistic update of a preset selection with its
    rollback. */
module Hooks {
  import opened Wrappers
  import opened Seqs
  import opened RobotModel
  import MapSpeedDial

  /** What the status selector answers when the robot reports no status. */
  const DefaultStatus: Status := Status(Error, FlagNone)

  /** The status selector of `useRobotStatus`: the first `StatusState`
      attribute, or the default error status. */
  function RobotStatus(attributes: seq<RobotAttribute>): (r: Status)
    ensures (forall a :: a in attributes ==> !a.StatusState?) ==> r == DefaultStatus
    ensures (exists a :: a in attributes && a.StatusState?) ==>
              exists i :: 0 <= i < |attributes| && attributes[i] == StatusState(r.value, r.flag) &&
                forall j :: 0 <= j < i ==> !attributes[j].StatusState?
  {
    match Find((a: RobotAttribute) => a.StatusState?, attributes)
    case None => DefaultStatus
    case Some(a) => Status(a.statusValue, a.flag)
  }

  /** The selector and the map's speed dial read the same status whenever
      the robot reports one. */
  lemma RobotStatusAgrees(attributes: seq<RobotAttribute>)
    ensures RobotStatus(attributes) == MapSpeedDial.StatusOf(Some(attributes)).GetOr(DefaultStatus)
  {
    FindSame((a: RobotAttribute) => a.StatusState?, MapSpeedDial.IsStatus, attributes);
  }

  /** The two capabilities whose presets can be chosen. */
  datatype PresetCapability = FanSpeedControl | WaterUsageControl

  /** `capabilityToPresetType`. */
  function CapabilityToPresetType(c: PresetCapability): (t: PresetType)
    ensures c == FanSpeedControl <==> t == FanSpeed
    ensures c == WaterUsageControl <==> t == WaterGrade
  {
    match c
    case FanSpeedControl => FanSpeed
    case WaterUsageControl => WaterGrade
  }

  /** Each preset type belongs to exactly one capability. */
  lemma CapabilityToPresetTypeBijective(c: PresetCapability, d: PresetCapability, t: PresetType)
    ensures CapabilityToPresetType(c) == CapabilityToPresetType(d) ==> c == d
    ensures exists e :: CapabilityToPresetType(e) == t
  {
    if t == FanSpeed {
      assert CapabilityToPresetType(FanSpeedControl) == t;
    } else {
      assert CapabilityToPresetType(WaterUsageControl) == t;
    }
  }

  predicate IsSelectionOf(t: PresetType, a: RobotAttribute)
  {
    a.PresetSelectionState? && a.presetType == t
  }

  /** `replaceAttribute(PresetSelectionState, a => a.type === t,
      a => ({...a, level}))`, as written: the spread adds a `level` key to
      every preset selection of type t and leaves its `value` as it was;
      every other attribute stays as it is, in place. */
  function ReplaceAttribute(t: PresetType, level: Preset, attributes: seq<RobotAttribute>): (r: seq<RobotAttribute>)
    ensures |r| == |attributes|
    ensures forall i :: 0 <= i < |r| && !IsSelectionOf(t, attributes[i]) ==> r[i] == attributes[i]
    ensures forall i :: 0 <= i < |r| && IsSelectionOf(t, attributes[i]) ==>
              IsSelectionOf(t, r[i]) && r[i].levelKey == Some(level) &&
              r[i].presetValue == attributes[i].presetValue
  {
    seq(|attributes|, i requires 0 <= i < |attributes| =>
      if IsSelectionOf(t, attributes[i]) then attributes[i].(levelKey := Some(level)) else attributes[i])
  }

  /** The update keeps every attribute's class and place and every preset
      value, and a second identical update changes nothing. */
  lemma ReplaceAttributeEffect(t: PresetType, level: Preset, attributes: seq<RobotAttribute>)
    ensures forall i :: 0 <= i < |attributes| ==>
              ClassOf(ReplaceAttribute(t, level, attributes)[i]) == ClassOf(attributes[i])
    ensures forall i :: 0 <= i < |attributes| && attributes[i].PresetSelectionState? ==>
              ReplaceAttribute(t, level, attributes)[i].presetValue == attributes[i].presetValue
    ensures ReplaceAttribute(t, level, ReplaceAttribute(t, level, attributes)) == ReplaceAttribute(t, level, attributes)
  {
    var r := ReplaceAttribute(t, level, attributes);
    var rr := ReplaceAttribute(t, level, r);
    forall i | 0 <= i < |attributes| ensures rr[i] == r[i] {
      if IsSelectionOf(t, attributes[i]) {
        assert r[i] == attributes[i].(levelKey := Some(level));
      }
    }
  }

  /** The optimistic update does not change the preset the robot is shown
      to use: a fan speed of `low` set to `high` still reads `low`. */
  lemma OptimisticValueUnchanged(attributes: seq<RobotAttribute>)
    requires attributes == [PresetSelectionState(FanSpeed, Low, None)]
    ensures ReplaceAttribute(FanSpeed, High, attributes)[0].presetValue == Low
    ensures ReplaceAttribute(FanSpeed, High, attributes) != attributes
  {
    assert IsSelectionOf(FanSpeed, attributes[0]);
  }

  /** The update as evidently intended, `a => ({...a, value: level})`: every
      preset selection of type t takes the new value. */
  function ReplaceAttributeValue(t: PresetType, level: Preset, attributes: seq<RobotAttribute>): (r: seq<RobotAttribute>)
    ensures |r| == |attributes|
  {
    seq(|attributes|, i requires 0 <= i < |attributes| =>
      if IsSelectionOf(t, attributes[i]) then attributes[i].(presetValue := level) else attributes[i])
  }

  /** With the intended update the cache reads the new value for the type,
      every other attribute is untouched, classes and places are kept, and
      the update is idempotent. */
  lemma ReplaceAttributeValueEffect(t: PresetType, level: Preset, attributes: seq<RobotAttribute>)
    ensures forall a :: a in ReplaceAttributeValue(t, level, attributes) && IsSelectionOf(t, a) ==>
              a.presetValue == level
    ensures forall i :: 0 <= i < |attributes| && !IsSelectionOf(t, attributes[i]) ==>
              ReplaceAttributeValue(t, level, attributes)[i] == attributes[i]
    ensures forall i :: 0 <= i < |attributes| ==>
              ClassOf(ReplaceAttributeValue(t, level, attributes)[i]) == ClassOf(attributes[i])
    ensures ReplaceAttributeValue(t, level, ReplaceAttributeValue(t, level, attributes)) ==
            ReplaceAttributeValue(t, level, attributes)
  {
    var r := ReplaceAttributeValue(t, level, attributes);
    forall a | a in r && IsSelectionOf(t, a) ensures a.presetValue == level {
      var i :| 0 <= i < |r| && r[i] == a;
      assert IsSelectionOf(t, attributes[i]);
    }
  }

  /** The cached `Attributes` query entry. */
  class AttributeCache {
    var attributes: Option<seq<RobotAttribute>>
    var invalidated: bool

    constructor (attributes: Option<seq<RobotAttribute>>)
      ensures this.attributes == attributes && !invalidated
    {
      this.attributes := attributes;
      invalidated := false;
    }

    /** `onMutate(level)`: the optimistic update; the answer is the rollback
        context, none when nothing was cached. */
    method OnMutate(capability: PresetCapability, level: Preset) returns (context: Option<seq<RobotAttribute>>)
      modifies this
      ensures old(attributes).None? ==> context.None? && attributes == old(attributes)
      ensures old(attributes).Some? ==> context == old(attributes)
      ensures old(attributes).Some? ==>
                attributes == Some(ReplaceAttribute(CapabilityToPresetType(capability), level, old(attributes).value))
      ensures invalidated == old(invalidated)
    {
      if attributes.None? {
        return None;
      }
      var previous := attributes.value;
      var t := CapabilityToPresetType(capability);
      attributes := Some(ReplaceAttribute(t, level, previous));
      context := Some(previous);
    }

    /** `onSettled`: the entry is refetched whatever the outcome. */
    method OnSettled()
      modifies this
      ensures invalidated && attributes == old(attributes)
    {
      invalidated := true;
    }

    /** `onError`: put back what the optimistic update replaced. */
    method OnError(context: Option<seq<RobotAttribute>>)
      modifies this
      ensures context.None? ==> attributes == old(attributes)
      ensures context.Some? ==> attributes == context
      ensures invalidated == old(invalidated)
    {
      if context.None? {
        return;
      }
      attributes := context;
    }
  }
}

/** The robot-state vocabulary the controls work with: status values and
    flags, the basic control commands, and the state attributes reported by
    the robot. The value sets follow the robot firmware's enumerations. */
module RobotModel {
  import opened Wrappers

  datatype StatusValue =
    | Error | Docked | Idle | Returning | Cleaning | Paused | ManualControl | Moving

  datatype StatusFlag =
    | FlagNone | Zone | Section | Spot | Target | Resumable | Mapping

  /** A `StatusState` attribute's value and flag. */
  datatype Status = Status(value: StatusValue, flag: StatusFlag)

  datatype Command = Start | Stop | Pause | Home

  /** `status === 'idle' || status === 'docked'`, with an undefined status
      (still loading) counting as neither. */
  predicate CanStart(status: Option<StatusValue>)
  {
    status == Some(Idle) || status == Some(Docked)
  }

  /** The intensity presets a robot reports, in the firmware's order. */
  datatype Preset = Off | Min | Low | Medium | High | Max | Turbo | Custom

  datatype PresetType = FanSpeed | WaterGrade

  datatype AttributeClass =
    | StatusStateClass
    | BatteryStateClass
    | IntensityStateClass
    | PresetSelectionStateClass
    | ConsumableStateClass

  datatype RobotAttribute =
    | StatusState(statusValue: StatusValue, flag: StatusFlag)
    | BatteryState(batteryLevel: int, batteryStatus: string)
    | IntensityState(intensityType: PresetType, intensityValue: Preset, customValue: Option<int>)
    /** `type` and `value`; `levelKey` is a `level` key written next to them
        (the robot reports none). */
    | PresetSelectionState(presetType: PresetType, presetValue: Preset, levelKey: Option<Preset>)
    | ConsumableState(consumableType: string, remaining: int)

  /** The `__class` tag of an attribute. */
  function ClassOf(a: RobotAttribute): AttributeClass
  {
    match a
    case StatusState(_, _) => StatusStateClass
    case BatteryState(_, _) => BatteryStateClass
    case IntensityState(_, _, _) => IntensityStateClass
    case PresetSelectionState(_, _, _) => PresetSelectionStateClass
    case ConsumableState(_, _) => ConsumableStateClass
  }
}

/** The fan speed card of the controls page: an on/off switch shown when
    the robot offers `off`, and a slider over the remaining presets in the
    order the robot reports them. */
module ControlsPage {
  import opened Wrappers
  import opened Seqs
  import opened RobotModel
  import opened IntensityControl

  /** `hasOff = presets?.includes('off') ?? false`: the switch is shown
      exactly when `off` is reported, and then the slider has fewer stops
      than there are reported presets. */
  function HasOff(presets: Option<seq<Preset>>): (r: bool)
    ensures r <==> presets.Some? && Off in presets.value
    ensures r ==> |FanPresets(presets).value| < |presets.value|
  {
    if presets.Some? && Off in presets.value then
      FilterDropsFailing(IsLevel, presets.value, Off);
      true
    else false
  }

  predicate IsLevel(p: Preset) { p != Off && p != Custom }

  /** The slider's presets: the reported ones without `off` and `custom`,
      in the reported order; undefined while there are no presets. */
  function FanPresets(presets: Option<seq<Preset>>): (r: Option<seq<Preset>>)
    ensures r.Some? <==> presets.Some?
    ensures r.Some? ==> r.value == Filter(IsLevel, presets.value)
    ensures r.Some? ==> Off !in r.value && Custom !in r.value
  {
    if presets.None? then None else Some(Filter(IsLevel, presets.value))
  }

  /** The index the slider shows: 0 for `off`, otherwise the level's place
      among the slider's presets, or 0 when it is not there. */
  function FanSliderIndex(filtered: Option<seq<Preset>>, level: Preset): (r: int)
    ensures r >= 0
    ensures level == Off ==> r == 0
    ensures level != Off && filtered.Some? && level in filtered.value ==>
              r < |filtered.value| && filtered.value[r] == level
    ensures level != Off && (filtered.None? || level !in filtered.value) ==> r == 0
  {
    if level == Off then 0
    else
      var index := if filtered.Some? then IndexOf(filtered.value, level) else -1;
      if index != -1 then index else 0
  }

  /** Flipping the switch, as written: on sends the first reported preset,
      off sends `off`; nothing is sent before the presets are known. */
  function Toggle(checked: bool, presets: Option<seq<Preset>>): (r: Sent)
    ensures presets.None? <==> r == NotSent
    ensures presets.Some? && !checked ==> r == SentLevel(Some(Off))
    ensures presets.Some? && checked ==> r == SentLevel(At(presets.value, 0))
  {
    if presets.None? then NotSent
    else SentLevel(if checked then At(presets.value, 0) else Some(Off))
  }

  /** When the robot lists `off` first, switching the fan on sends `off`:
      the switch cannot turn the fan on. */
  lemma ToggleOnCanSendOff()
    ensures HasOff(Some([Off, Low])) && Toggle(true, Some([Off, Low])) == SentLevel(Some(Off))
  {
  }

  /** Flipping the switch, corrected: on sends the first slider preset. */
  function ToggleFixed(checked: bool, presets: Option<seq<Preset>>): (r: Sent)
    ensures presets.None? <==> r == NotSent
    ensures presets.Some? && !checked ==> r == SentLevel(Some(Off))
  {
    if presets.None? then NotSent
    else if checked then SentLevel(At(FanPresets(presets).value, 0))
    else SentLevel(Some(Off))
  }

  /** Switching on never sends `off` or `custom`, and sends a level
      whenever the robot offers one besides `off` and `custom`. */
  lemma ToggleOnSendsLevel(presets: Option<seq<Preset>>)
    requires presets.Some?
    ensures ToggleFixed(true, presets).SentLevel?
    ensures ToggleFixed(true, presets).level.Some? ==> IsLevel(ToggleFixed(true, presets).level.value)
    ensures (exists p :: p in presets.value && IsLevel(p)) ==> ToggleFixed(true, presets).level.Some?
  {
    var f := FanPresets(presets).value;
    if f != [] {
      assert f[0] in f;
    }
  }

  /** The `sliderValue` state cell of the fan speed card. */
  class FanSpeedSlider {
    var sliderValue: int

    constructor ()
      ensures sliderValue == 0
    {
      sliderValue := 0;
    }

    /** The effect run when the fan speed or the presets change. */
    method SyncToLevel(fanSpeed: Option<Preset>, filtered: Option<seq<Preset>>)
      modifies this
      ensures fanSpeed.None? ==> sliderValue == old(sliderValue)
      ensures fanSpeed.Some? ==> sliderValue == FanSliderIndex(filtered, fanSpeed.value)
    {
      if fanSpeed.None? {
        return;
      }
      if fanSpeed.value == Off {
        sliderValue := 0;
        return;
      }
      var index := if filtered.Some? then IndexOf(filtered.value, fanSpeed.value) else -1;
      sliderValue := if index != -1 then index else 0;
    }

    method HandleChange(value: SliderValue)
      modifies this
      ensures value.Number? ==> sliderValue == value.n
      ensures value.Range? ==> sliderValue == old(sliderValue)
    {
      if !value.Number? {
        return;
      }
      sliderValue := value.n;
    }

    /** Releasing the slider at index v sends the v-th slider preset; nothing
      happens before the presets are known. */
    method HandleCommit(value: SliderValue, filtered: Option<seq<Preset>>) returns (sent: Sent)
      modifies this
      ensures value.Range? || filtered.None? ==> sent == NotSent && sliderValue == old(sliderValue)
      ensures value.Number? && filtered.Some? ==>
                sliderValue == value.n && sent == SentLevel(At(filtered.value, value.n))
    {
      if !value.Number? || filtered.None? {
        return NotSent;
      }
      sliderValue := value.n;
      sent := SentLevel(At(filtered.value, value.n));
    }
  }

  /** Committing where the slider was put for a listed level sends that
      level back. */
  lemma CommitAtSyncedIndex(presets: Option<seq<Preset>>, level: Preset)
    requires presets.Some? && level in presets.value && IsLevel(level)
    ensures At(FanPresets(presets).value, FanSliderIndex(FanPresets(presets), level)) == Some(level)
  {
  }

  datatype FanView =
    | FanLoading
    | FanError
    | FanPanel(switchShown: bool, switchChecked: bool, value: int, maxValue: int, sliderDisabled: bool)

  /** What the card shows. */
  function FanSpeedView(isLoading: bool, isError: bool, presets: Option<seq<Preset>>,
                        fanSpeed: Option<Preset>, sliderValue: int): (r: FanView)
    ensures r.FanLoading? <==> isLoading
    ensures r.FanError? <==> !isLoading && (isError || fanSpeed.None? || presets.None?)
    ensures r.FanPanel? ==> (r.switchShown <==> Off in presets.value)
    ensures r.FanPanel? ==> (r.switchChecked <==> fanSpeed.value != Off)
    ensures r.FanPanel? ==> (r.sliderDisabled <==> fanSpeed.value == Off)
    ensures r.FanPanel? ==> r.value == sliderValue && r.maxValue == |FanPresets(presets).value| - 1
  {
    if isLoading then FanLoading
    else if isError || fanSpeed.None? || presets.None? then FanError
    else
      FanPanel(HasOff(presets), fanSpeed.value != Off, sliderValue,
               |FanPresets(presets).value| - 1, fanSpeed.value == Off)
  }

  /** The switch and the slider agree: the slider is usable exactly when
      the switch is on. */
  lemma SwitchMatchesSlider(isLoading: bool, isError: bool, presets: Option<seq<Preset>>,
                            fanSpeed: Option<Preset>, sliderValue: int)
    requires FanSpeedView(isLoading, isError, presets, fanSpeed, sliderValue).FanPanel?
    ensures FanSpeedView(isLoading, isError, presets, fanSpeed, sliderValue).switchChecked <==>
            !FanSpeedView(isLoading, isError, presets, fanSpeed, sliderValue).sliderDisabled
  {
  }
}

/** The projection of the robot's state attributes onto the state the
    controls read: the status value, the battery, and one intensity entry per
    intensity type. */
module Client {
  import opened Wrappers
  import opened Seqs
  import opened RobotModel
  import opened Records
  import opened ApiUtils

  datatype Battery = Battery(status: string, level: int)

  datatype IntensityEntry = IntensityEntry(level: Preset, customValue: Option<int>)

  datatype RobotState = RobotState(
    status: StatusValue,
    battery: Battery,
    intensity: seq<(PresetType, IntensityEntry)>)

  function EntryOf(a: RobotAttribute): IntensityEntry
    requires a.IntensityState?
  {
    IntensityEntry(a.intensityValue, a.customValue)
  }

  /** Reference reading of the intensity record: the entry of the last
      intensity attribute of type t, if any. */
  function LastOfType(attrs: seq<RobotAttribute>, t: PresetType): (r: Option<IntensityEntry>)
    ensures r.None? <==> forall a :: a in attrs ==> !(a.IntensityState? && a.intensityType == t)
    ensures r.Some? ==> exists i :: 0 <= i < |attrs| && attrs[i].IntensityState? &&
                          attrs[i].intensityType == t && EntryOf(attrs[i]) == r.value &&
                          forall j :: i < j < |attrs| ==> !(attrs[j].IntensityState? && attrs[j].intensityType == t)
  {
    if attrs == [] then None
    else
      var rest := LastOfType(attrs[1..], t);
      if rest.Some? then
        var i :| 0 <= i < |attrs| - 1 && attrs[1..][i].IntensityState? &&
                 attrs[1..][i].intensityType == t && EntryOf(attrs[1..][i]) == rest.value &&
                 forall j :: i < j < |attrs| - 1 ==> !(attrs[1..][j].IntensityState? && attrs[1..][j].intensityType == t);
        assert forall j :: i + 1 < j < |attrs| ==> attrs[j] == attrs[1..][j - 1];
        assert attrs[i + 1] == attrs[1..][i];
        rest
      else if attrs[0].IntensityState? && attrs[0].intensityType == t then
        assert attrs[0] == attrs[..][0];
        Some(EntryOf(attrs[0]))
      else
        assert forall a :: a in attrs ==> a == attrs[0] || a in attrs[1..];
        None
  }

  /** `intensityAttributes.reduce((prev, {type, value, customValue}) =>
      ({...prev, [type]: {level: value, customValue}}), acc)`. */
  function FoldIntensity(attrs: seq<RobotAttribute>, acc: seq<(PresetType, IntensityEntry)>): (r: seq<(PresetType, IntensityEntry)>)
    requires forall a :: a in attrs ==> a.IntensityState?
    ensures Keys(acc) <= Keys(r)
    ensures forall a :: a in attrs ==> a.intensityType in Keys(r)
  {
    if attrs == [] then acc
    else
      var acc' := Set(acc, attrs[0].intensityType, EntryOf(attrs[0]));
      var r := FoldIntensity(attrs[1..], acc');
      assert attrs[0].intensityType in Keys(acc');
      assert forall k :: k in Keys(acc') ==> k in Keys(r) by {
        forall k | k in Keys(acc') ensures k in Keys(r) {
          var i :| 0 <= i < |Keys(acc')| && Keys(acc')[i] == k;
          assert Keys(r)[i] == k;
        }
      }
      assert forall a :: a in attrs ==> a == attrs[0] || a in attrs[1..];
      r
  }

  /** Later attributes of a type override earlier ones: the folded record
      reads, for each type, the last attribute of that type, or what the
      accumulator read when there is none; its keys stay unique. */
  lemma {:induction false} FoldLastWins(attrs: seq<RobotAttribute>, acc: seq<(PresetType, IntensityEntry)>, t: PresetType)
    requires forall a :: a in attrs ==> a.IntensityState?
    ensures Lookup(FoldIntensity(attrs, acc), t) ==
            (if LastOfType(attrs, t).Some? then LastOfType(attrs, t) else Lookup(acc, t))
  {
    if attrs != [] {
      var acc' := Set(acc, attrs[0].intensityType, EntryOf(attrs[0]));
      FoldLastWins(attrs[1..], acc', t);
      SetLookup(acc, attrs[0].intensityType, EntryOf(attrs[0]), t);
    }
  }

  lemma {:induction false} FoldUnique(attrs: seq<RobotAttribute>, acc: seq<(PresetType, IntensityEntry)>)
    requires forall a :: a in attrs ==> a.IntensityState?
    requires UniqueKeys(acc)
    ensures UniqueKeys(FoldIntensity(attrs, acc))
  {
    if attrs != [] {
      SetUnique(acc, attrs[0].intensityType, EntryOf(attrs[0]));
      FoldUnique(attrs[1..], Set(acc, attrs[0].intensityType, EntryOf(attrs[0])));
    }
  }

  /** Attributes of other classes do not change the reference reading. */
  lemma {:induction false} LastOfTypeFilter(attrs: seq<RobotAttribute>, t: PresetType)
    ensures LastOfType(Filter(OfClass(IntensityStateClass), attrs), t) == LastOfType(attrs, t)
  {
    if attrs != [] {
      LastOfTypeFilter(attrs[1..], t);
      if OfClass(IntensityStateClass)(attrs[0]) {
        assert Filter(OfClass(IntensityStateClass), attrs)[1..] == Filter(OfClass(IntensityStateClass), attrs[1..]);
      }
    }
  }

  /** The intensity record folded from the attributes `getAttributes`
      selected reads the last attribute of each type. */
  function IntensityRecord(attributes: seq<RobotAttribute>, intensities: seq<RobotAttribute>): (r: seq<(PresetType, IntensityEntry)>)
    requires intensities == Filter(OfClass(IntensityStateClass), attributes)
    ensures UniqueKeys(r)
    ensures forall t :: Lookup(r, t) == LastOfType(attributes, t)
  {
    assert forall a :: a in intensities ==> a.IntensityState?;
    FoldUnique(intensities, []);
    assert forall t :: Lookup(FoldIntensity(intensities, []), t) == LastOfType(attributes, t) by {
      forall t ensures Lookup(FoldIntensity(intensities, []), t) == LastOfType(attributes, t) {
        FoldLastWins(intensities, [], t);
        LastOfTypeFilter(attributes, t);
      }
    }
    FoldIntensity(intensities, [])
  }

  /** `fetchState` without the request: the first status, the first
      battery and the folded intensities; the first missing class, in the
      order status, battery, intensity, is the error. */
  function FetchState(attributes: seq<RobotAttribute>): (r: Result<RobotState, AttributeClass>)
    ensures r.Ok? <==> (exists a :: a in attributes && a.StatusState?) &&
                       (exists a :: a in attributes && a.BatteryState?) &&
                       (exists a :: a in attributes && a.IntensityState?)
    ensures (forall a :: a in attributes ==> !a.StatusState?) ==> r == Err(StatusStateClass)
    ensures ((exists a :: a in attributes && a.StatusState?) &&
             (forall a :: a in attributes ==> !a.BatteryState?)) ==> r == Err(BatteryStateClass)
    ensures ((exists a :: a in attributes && a.StatusState?) &&
             (exists a :: a in attributes && a.BatteryState?) &&
             (forall a :: a in attributes ==> !a.IntensityState?)) ==> r == Err(IntensityStateClass)
    ensures r.Ok? ==> exists i :: 0 <= i < |attributes| && attributes[i].StatusState? && attributes[i].statusValue == r.value.status &&
                        forall j :: 0 <= j < i ==> !attributes[j].StatusState?
    ensures r.Ok? ==> exists i :: 0 <= i < |attributes| &&
                        attributes[i] == BatteryState(r.value.battery.level, r.value.battery.status) &&
                        forall j :: 0 <= j < i ==> !attributes[j].BatteryState?
    ensures r.Ok? ==> UniqueKeys(r.value.intensity)
    ensures r.Ok? ==> forall t :: Lookup(r.value.intensity, t) == LastOfType(attributes, t)
  {
    var statuses := GetAttributes(StatusStateClass, attributes);
    if statuses.Err? then
      assert forall a :: a in attributes ==> !a.StatusState?;
      Err(statuses.error)
    else
      var batteries := GetAttributes(BatteryStateClass, attributes);
      if batteries.Err? then
        assert forall a :: a in attributes ==> !a.BatteryState?;
        Err(batteries.error)
      else
        var intensities := GetAttributes(IntensityStateClass, attributes);
        if intensities.Err? then
          assert forall a :: a in attributes ==> !a.IntensityState?;
          Err(intensities.error)
        else
          var status := statuses.value[0];
          var battery := batteries.value[0];
          GetAttributesFirst(StatusStateClass, attributes);
          GetAttributesFirst(BatteryStateClass, attributes);
          var intensity := IntensityRecord(attributes, intensities.value);
          Ok(RobotState(status.statusValue, Battery(battery.batteryStatus, battery.batteryLevel), intensity))
  }
}

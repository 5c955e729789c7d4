/** The intensity slider (fan speed or water grade): presets sorted in a
    fixed order without `custom`, a slider index kept in sync with the
    robot's level, and a commit that sends the preset under the slider. */
module IntensityControl {
  import opened Wrappers
  import opened Seqs
  import opened RobotModel

  /** `order.indexOf(p)`: off < min < low < medium < high < max < turbo;
      `custom` is not in the order and gets -1. */
  function Order(p: Preset): (r: int)
    ensures -1 <= r <= 6
    ensures r == -1 <==> p == Custom
  {
    match p
    case Off => 0
    case Min => 1
    case Low => 2
    case Medium => 3
    case High => 4
    case Max => 5
    case Turbo => 6
    case Custom => -1
  }

  /** Distinct presets have distinct places in the order. */
  lemma OrderInjective(p: Preset, q: Preset)
    ensures Order(p) == Order(q) ==> p == q
  {
  }

  predicate SortedByOrder(s: seq<Preset>)
  {
    forall i, j :: 0 <= i < j < |s| ==> Order(s[i]) <= Order(s[j])
  }

  /** Inserting p into a sorted list, before the first element that comes
      after it. */
  function Insert(p: Preset, s: seq<Preset>): (r: seq<Preset>)
    ensures |r| == |s| + 1
  {
    if s == [] || Order(p) <= Order(s[0]) then [p] + s
    else [s[0]] + Insert(p, s[1..])
  }

  /** Inserting adds p and nothing else. */
  lemma {:induction false} InsertMultiset(p: Preset, s: seq<Preset>)
    ensures multiset(Insert(p, s)) == multiset(s) + multiset{p}
  {
    if s != [] && Order(p) > Order(s[0]) {
      InsertMultiset(p, s[1..]);
      assert s == [s[0]] + s[1..];
    }
  }

  lemma {:induction false} InsertElements(p: Preset, s: seq<Preset>)
    ensures forall x :: x in Insert(p, s) ==> x == p || x in s
  {
    if s != [] && Order(p) > Order(s[0]) {
      InsertElements(p, s[1..]);
    }
  }

  /** Inserting into a sorted list keeps it sorted. */
  lemma {:induction false} InsertSorted(p: Preset, s: seq<Preset>)
    requires SortedByOrder(s)
    ensures SortedByOrder(Insert(p, s))
  {
    if s != [] && Order(p) > Order(s[0]) {
      InsertSorted(p, s[1..]);
      InsertElements(p, s[1..]);
      var rest := Insert(p, s[1..]);
      var r := [s[0]] + rest;
      forall i, j | 0 <= i < j < |r| ensures Order(r[i]) <= Order(r[j]) {
        if i == 0 {
          assert r[j] == rest[j - 1] && rest[j - 1] in rest;
        } else {
          assert r[i] == rest[i - 1] && r[j] == rest[j - 1];
        }
      }
    }
  }

  /** `[...intensities].sort((a, b) => order.indexOf(a) - order.indexOf(b))`:
      a sorted copy; the argument is not changed. */
  function SortPresets(intensities: seq<Preset>): (r: seq<Preset>)
    ensures |r| == |intensities|
  {
    if intensities == [] then [] else Insert(intensities[0], SortPresets(intensities[1..]))
  }

  /** The copy is ordered by the fixed order and holds exactly the input's
      presets, each as often as in the input. */
  lemma {:induction false} SortPresetsCorrect(intensities: seq<Preset>)
    ensures SortedByOrder(SortPresets(intensities))
    ensures multiset(SortPresets(intensities)) == multiset(intensities)
  {
    if intensities != [] {
      SortPresetsCorrect(intensities[1..]);
      InsertSorted(intensities[0], SortPresets(intensities[1..]));
      InsertMultiset(intensities[0], SortPresets(intensities[1..]));
      assert intensities == [intensities[0]] + intensities[1..];
    }
  }

  predicate NotCustom(p: Preset) { p != Custom }

  /** `filteredPresets`: the reported presets without `custom`, sorted; no
      presets yet gives an empty list. */
  function FilteredPresets(presets: Option<seq<Preset>>): (r: seq<Preset>)
    ensures SortedByOrder(r)
    ensures Custom !in r
    ensures forall p :: p in r <==> presets.Some? && p in presets.value && p != Custom
    ensures multiset(r) == multiset(Filter(NotCustom, presets.GetOr([])))
  {
    var kept := Filter(NotCustom, presets.GetOr([]));
    var sorted := SortPresets(kept);
    SortPresetsCorrect(kept);
    assert Custom !in kept;
    assert forall p :: p in sorted <==> p in multiset(sorted);
    assert forall p :: p in sorted <==> p in kept;
    sorted
  }

  // ---------------------------------------------------------------------
  // The slider
  // ---------------------------------------------------------------------

  /** The slider reports a number, or an array of numbers for a range
      slider; only a number is acted on. */
  datatype SliderValue = Number(n: int) | Range(values: seq<int>)

  /** What a handler passes to the mutation: nothing, or a level that is
      undefined when the index lies outside the list. */
  datatype Sent = NotSent | SentLevel(level: Option<Preset>)

  /** The index the slider shows for a level: its place in the list, or 0
      when it is not listed. */
  function SliderIndex(presets: seq<Preset>, level: Preset): (r: int)
    ensures 0 <= r && (|presets| > 0 ==> r < |presets|)
    ensures level in presets ==> presets[r] == level
    ensures level !in presets ==> r == 0
  {
    var i := IndexOf(presets, level);
    if i != -1 then i else 0
  }

  /** The slider and the commit agree: committing the index shown for a
      listed level sends that level, and in a list without repeats the
      index shown for the preset under index v is v. */
  lemma SliderRoundTrip(presets: seq<Preset>, level: Preset, v: int)
    ensures level in presets ==> At(presets, SliderIndex(presets, level)) == Some(level)
    ensures NoDuplicates(presets) && 0 <= v < |presets| ==> SliderIndex(presets, presets[v]) == v
  {
    if NoDuplicates(presets) && 0 <= v < |presets| {
      var i := IndexOf(presets, presets[v]);
      assert presets[i] == presets[v];
    }
  }

  datatype Mark = Mark(value: int, caption: Preset)

  /** One mark per preset: its index and its name. */
  function Marks(presets: seq<Preset>): (r: seq<Mark>)
    ensures |r| == |presets|
    ensures forall i :: 0 <= i < |r| ==> r[i].value == i && At(presets, r[i].value) == Some(r[i].caption)
  {
    seq(|presets|, i requires 0 <= i < |presets| => Mark(i, presets[i]))
  }

  /** The `sliderValue` state cell and its handlers. */
  class IntensitySlider {
    var sliderValue: int

    constructor ()
      ensures sliderValue == 0
    {
      sliderValue := 0;
    }

    /** The effect run when the level or the list changes. */
    method SyncToLevel(intensity: Option<Preset>, filtered: seq<Preset>)
      modifies this
      ensures intensity.None? ==> sliderValue == old(sliderValue)
      ensures intensity.Some? ==> sliderValue == SliderIndex(filtered, intensity.value)
    {
      if intensity.None? {
        return;
      }
      var index := IndexOf(filtered, intensity.value);
      sliderValue := if index != -1 then index else 0;
    }

    method HandleChange(value: SliderValue)
      modifies this
      ensures value.Number? ==> sliderValue == value.n
      ensures value.Range? ==> sliderValue == old(sliderValue)
    {
      if !value.Number? {
        return;
      }
      sliderValue := value.n;
    }

    /** Releasing the slider at index v sends `filtered[v]`. */
    method HandleCommit(value: SliderValue, filtered: seq<Preset>) returns (sent: Sent)
      modifies this
      ensures value.Range? ==> sent == NotSent && sliderValue == old(sliderValue)
      ensures value.Number? ==> sliderValue == value.n && sent == SentLevel(At(filtered, value.n))
    {
      if !value.Number? {
        return NotSent;
      }
      sliderValue := value.n;
      sent := SentLevel(At(filtered, value.n));
    }
  }

  // ---------------------------------------------------------------------
  // What the card shows
  // ---------------------------------------------------------------------

  datatype Body = Loading | LoadError | SliderBody(value: int, maxValue: int, marks: seq<Mark>)

  /** A spinner while the presets load, an error when they failed or the
      robot reports no level of this kind, otherwise the slider over the
      filtered presets (the filtered list itself is always defined). */
  function IntensityBody(isLoading: bool, isError: bool, intensity: Option<Preset>,
                         presets: Option<seq<Preset>>, sliderValue: int): (r: Body)
    ensures r.Loading? <==> isLoading
    ensures r.LoadError? <==> !isLoading && (isError || intensity.None?)
    ensures r.SliderBody? ==> r.value == sliderValue && r.maxValue + 1 == |r.marks|
    ensures r.SliderBody? ==> forall p :: (exists m :: m in r.marks && m.caption == p) <==>
                                          presets.Some? && p in presets.value && p != Custom
  {
    if isLoading then Loading
    else if isError || intensity.None? then LoadError
    else
      var filtered := FilteredPresets(presets);
      var marks := Marks(filtered);
      assert forall p :: (exists m :: m in marks && m.caption == p) <==> p in filtered by {
        forall p ensures (exists m :: m in marks && m.caption == p) <==> p in filtered {
          if p in filtered {
            var i :| 0 <= i < |filtered| && filtered[i] == p;
            assert marks[i] in marks && marks[i].caption == p;
          }
        }
      }
      SliderBody(sliderValue, |marks| - 1, marks)
  }
}

/** The zone preset list of the controls page: a checkbox per preset and a
    button that cleans the ticked ones. */
module ZonePresets {
  import opened Wrappers
  import opened CheckboxRecord

  /** A saved zone preset; its zones are not needed here. */
  datatype ZonePreset = ZonePreset(id: string, name: string)

  /** The checkboxes: one per preset, in the robot's order. */
  function PresetRows(zones: Option<seq<ZonePreset>>, r: seq<Entry>): (rows: seq<Row>)
    ensures zones.None? ==> rows == []
    ensures zones.Some? ==> |rows| == |zones.value|
    ensures zones.Some? ==> forall i :: 0 <= i < |rows| ==>
              rows[i] == Row(zones.value[i].id, zones.value[i].name, Checked(r, zones.value[i].id))
  {
    if zones.None? then []
    else
      var z := zones.value;
      Rows(seq(|z|, i requires 0 <= i < |z| => (z[i].id, z[i].name)), r)
  }
}

/** The `Record<string, boolean>` of checkboxes behind the segment and the
    zone preset lists: an id maps to whether its box is ticked. */
module CheckboxRecord {
  import opened Wrappers
  import opened Seqs
  import opened RobotModel
  import opened Records

  type Entry = (string, bool)

  /** `checked={selected[id] ?? false}`. */
  function Checked(r: seq<Entry>, id: string): (c: bool)
    ensures c <==> Lookup(r, id) == Some(true)
    ensures c ==> (id, true) in r
  {
    Lookup(r, id) == Some(true)
  }

  /** `Object.entries(selected).filter(([, v]) => v).map(([id]) => id)`. */
  function SelectedIds(r: seq<Entry>): (ids: seq<string>)
    ensures |ids| <= |r|
    ensures forall id :: id in ids <==> (id, true) in r
  {
    if r == [] then []
    else if r[0].1 then [r[0].0] + SelectedIds(r[1..])
    else SelectedIds(r[1..])
  }

  /** With one entry per id, an id is sent exactly when its box is ticked. */
  lemma {:induction false} SelectedIffChecked(r: seq<Entry>, id: string)
    requires UniqueKeys(r)
    ensures id in SelectedIds(r) <==> Checked(r, id)
  {
    if r != [] {
      UniqueTail(r);
      SelectedIffChecked(r[1..], id);
      if r[0].0 == id {
        assert (id, true) !in r[1..] by {
          forall k | 0 <= k < |r| - 1 ensures r[1..][k] != (id, true) {
            assert Keys(r[1..])[k] != id;
          }
        }
      }
    }
  }

  /** With one entry per id, no id is sent twice. */
  lemma {:induction false} SelectedUnique(r: seq<Entry>)
    requires UniqueKeys(r)
    ensures NoDuplicates(SelectedIds(r))
  {
    if r != [] {
      UniqueTail(r);
      SelectedUnique(r[1..]);
      var rest := SelectedIds(r[1..]);
      if r[0].1 {
        assert (r[0].0, true) !in r[1..] by {
          forall k | 0 <= k < |r| - 1 ensures r[1..][k] != (r[0].0, true) {
            assert Keys(r[1..])[k] != r[0].0;
          }
        }
        var ids := [r[0].0] + rest;
        forall i, j | 0 <= i < j < |ids| ensures ids[i] != ids[j] {
          if i == 0 { assert ids[j] == rest[j - 1] && rest[j - 1] in rest; }
          else { assert ids[i] == rest[i - 1] && ids[j] == rest[j - 1]; }
        }
      }
    }
  }

  /** Ticking a new box adds its id at the end of what clean sends; an
      unticked new box sends nothing more. */
  lemma {:induction false} SelectedAfterNewEntry(r: seq<Entry>, id: string, checked: bool)
    requires id !in Keys(r)
    ensures SelectedIds(Set(r, id, checked)) == SelectedIds(r) + (if checked then [id] else [])
  {
    if r != [] {
      SelectedAfterNewEntry(r[1..], id, checked);
    }
  }

  /** `Object.values(selected).every((val) => !val)`. */
  function NoneSelected(r: seq<Entry>): (b: bool)
    ensures b <==> forall e :: e in r ==> !e.1
  {
    All((e: Entry) => !e.1, r)
  }

  /** Nothing is ticked exactly when clean would send no id; in particular
      for the empty record. */
  lemma NoneSelectedIff(r: seq<Entry>)
    ensures NoneSelected(r) <==> SelectedIds(r) == []
    ensures NoneSelected([])
  {
    if !NoneSelected(r) {
      var e :| e in r && e.1;
      assert e.0 in SelectedIds(r);
    }
  }

  /** The clean button is disabled when nothing is ticked or the robot is
      neither idle nor docked. */
  function CleanDisabled(r: seq<Entry>, status: Option<StatusValue>): (d: bool)
    ensures !d <==> (exists e :: e in r && e.1) && (status == Some(Idle) || status == Some(Docked))
  {
    NoneSelected(r) || !CanStart(status)
  }

  /** An enabled clean button always sends at least one id. */
  lemma EnabledCleanSendsIds(r: seq<Entry>, status: Option<StatusValue>)
    requires !CleanDisabled(r, status)
    ensures SelectedIds(r) != []
  {
    NoneSelectedIff(r);
  }

  /** A listed checkbox: its id, its label and whether it is ticked. */
  datatype Row = Row(id: string, caption: string, checked: bool)

  /** The list of checkboxes for items given as id and label. */
  function Rows(items: seq<(string, string)>, r: seq<Entry>): (rows: seq<Row>)
    ensures |rows| == |items|
    ensures forall i :: 0 <= i < |items| ==>
              rows[i] == Row(items[i].0, items[i].1, Checked(r, items[i].0))
  {
    seq(|items|, i requires 0 <= i < |items| => Row(items[i].0, items[i].1, Checked(r, items[i].0)))
  }

  /** When every ticked id belongs to a listed item (boxes exist only for
      listed items), clean sends exactly the ids of the ticked rows. */
  lemma CleanSendsTickedRows(items: seq<(string, string)>, r: seq<Entry>, id: string)
    requires UniqueKeys(r)
    requires forall e :: e in r && e.1 ==> exists it :: it in items && it.0 == e.0
    ensures id in SelectedIds(r) <==> exists row :: row in Rows(items, r) && row.id == id && row.checked
  {
    SelectedIffChecked(r, id);
    var rows := Rows(items, r);
    if id in SelectedIds(r) {
      var it :| it in items && it.0 == id;
      var i :| 0 <= i < |items| && items[i] == it;
      assert rows[i] in rows && rows[i].id == id && rows[i].checked;
    }
    if exists row :: row in rows && row.id == id && row.checked {
      var row :| row in rows && row.id == id && row.checked;
      var i :| 0 <= i < |rows| && rows[i] == row;
      assert Checked(r, items[i].0);
    }
  }

  /** The `selected` state of a checkbox list; it never holds two entries
      for one id. */
  class Selection {
    var selected: seq<Entry>

    predicate Valid()
      reads this
    {
      UniqueKeys(selected)
    }

    constructor ()
      ensures Valid() && selected == []
    {
      selected := [];
    }

    method HandleCheckboxChange(id: string, checked: bool)
      requires Valid()
      modifies this
      ensures Valid()
      ensures selected == Set(old(selected), id, checked)
    {
      SetUnique(selected, id, checked);
      selected := Set(selected, id, checked);
    }

    /** The ids handed to the clean mutation: exactly the ticked ones. */
    method HandleClean() returns (ids: seq<string>)
      requires Valid()
      ensures ids == SelectedIds(selected)
      ensures forall id :: id in ids <==> Checked(selected, id)
      ensures NoDuplicates(ids)
    {
      ids := SelectedIds(selected);
      forall id ensures id in ids <==> Checked(selected, id) {
        SelectedIffChecked(selected, id);
      }
      SelectedUnique(selected);
    }
  }
}

/** The segment list of the controls page: named segments with a checkbox
    each, and a button that cleans the ticked ones. */
module SegmentList {
  import opened Wrappers
  import opened Seqs
  import opened CheckboxRecord

  /** A segment as the robot lists it; its name may be missing. */
  datatype Segment = Segment(id: string, name: Option<string>)

  predicate IsNamed(s: Segment) { s.name.Some? }

  /** `namedSegments`: the segments with a name, in the robot's order;
      undefined while the segments are not loaded. */
  function NamedSegments(segments: Option<seq<Segment>>): (r: Option<seq<Segment>>)
    ensures r.Some? <==> segments.Some?
    ensures r.Some? ==> forall s :: s in r.value <==> s in segments.value && s.name.Some?
    ensures r.Some? ==> r.value == Filter(IsNamed, segments.value)
  {
    if segments.None? then None else Some(Filter(IsNamed, segments.value))
  }

  /** The checkboxes: one per named segment, labelled with its name. */
  function SegmentRows(segments: Option<seq<Segment>>, r: seq<Entry>): (rows: seq<Row>)
    ensures segments.None? ==> rows == []
    ensures forall row :: row in rows ==> exists s :: s in segments.value && s.id == row.id &&
                                                      s.name == Some(row.caption)
    ensures forall s :: segments.Some? && s in segments.value && s.name.Some? ==>
              Row(s.id, s.name.value, Checked(r, s.id)) in rows
  {
    if segments.None? then []
    else
      var named := NamedSegments(segments).value;
      var items := seq(|named|, i requires 0 <= i < |named| => (named[i].id, named[i].name.value));
      var rows := Rows(items, r);
      assert forall s :: s in segments.value && s.name.Some? ==> Row(s.id, s.name.value, Checked(r, s.id)) in rows by {
        forall s | s in segments.value && s.name.Some? ensures Row(s.id, s.name.value, Checked(r, s.id)) in rows {
          var i :| 0 <= i < |named| && named[i] == s;
          assert rows[i] == Row(s.id, s.name.value, Checked(r, s.id));
        }
      }
      assert forall row :: row in rows ==> exists s :: s in segments.value && s.id == row.id &&
                                                      s.name == Some(row.caption) by {
        forall row | row in rows ensures exists s :: s in segments.value && s.id == row.id &&
                                                     s.name == Some(row.caption) {
          var i :| 0 <= i < |rows| && rows[i] == row;
          assert named[i] in named;
        }
      }
      rows
  }
}

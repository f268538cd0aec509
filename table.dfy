/** The annotation table and the slice selector (get_metrics.py, get_slice_by). */
module Table {
  import opened Base

  /** A sheet_type cell: text, or pandas' NaN when the cell is empty. */
  datatype Cell = Text(text: string) | Missing

  /** One row of the input table. */
  datatype Record = Record(rtype: string, batch: string, team: string, task: string, sheet: Cell, labelValue: string)

  /** A comparison unit: (team_name, batch) for MAIN rows; for IAA rows also the
      sheet_type, which MAIN keys do not carry at all (None). */
  datatype GroupKey = GroupKey(team: string, batch: string, sheet: Option<Cell>)

  /** An ordered pair of comparison units. */
  type Pair = (GroupKey, GroupKey)

  /** Python truthiness of an annotator argument: None and "" are false; NaN is true. */
  predicate Truthy(annotator: Option<Cell>)
  {
    match annotator
    case None => false
    case Some(Missing) => true
    case Some(Text(t)) => t != ""
  }

  /** pandas' element-wise ==: NaN equals nothing, itself included. */
  predicate CellEquals(c: Cell, a: Cell)
  {
    c.Text? && a.Text? && c.text == a.text
  }

  /** The row filter of get_slice_by; the sheet_type test applies only to a truthy annotator. */
  predicate Selected(x: Record, sType: string, batch: string, team: string, task: string, annotator: Option<Cell>)
  {
    && x.rtype == sType && x.batch == batch && x.team == team && x.task == task
    && (Truthy(annotator) ==> CellEquals(x.sheet, annotator.value))
  }

  /** get_slice_by: the rows that pass the filter, in table order. */
  function SliceBy(table: seq<Record>, sType: string, batch: string, team: string, task: string, annotator: Option<Cell>): seq<Record>
  {
    if table == [] then []
    else
      var rest := SliceBy(table[..|table| - 1], sType, batch, team, task, annotator);
      var last := table[|table| - 1];
      if Selected(last, sType, batch, team, task, annotator) then rest + [last] else rest
  }

  /** The slice holds exactly the table rows that pass the filter and is no longer
      than the table. */
  lemma {:induction false} SliceByMembers(table: seq<Record>, sType: string, batch: string, team: string, task: string, annotator: Option<Cell>)
    ensures var r := SliceBy(table, sType, batch, team, task, annotator);
            && |r| <= |table|
            && (forall x :: x in r ==> x in table && Selected(x, sType, batch, team, task, annotator))
            && (forall x :: x in table && Selected(x, sType, batch, team, task, annotator) ==> x in r)
  {
    if table != [] {
      SliceByMembers(table[..|table| - 1], sType, batch, team, task, annotator);
      assert table == table[..|table| - 1] + [table[|table| - 1]];
    }
  }

  /** The label column of a slice. */
  function LabelColumn(rows: seq<Record>): (r: seq<string>)
    ensures |r| == |rows|
    ensures forall i :: 0 <= i < |rows| ==> r[i] == rows[i].labelValue
  {
    seq(|rows|, i requires 0 <= i < |rows| => rows[i].labelValue)
  }

  /** The slice keeps table order: selecting from two consecutive parts of the table
      gives the selections of the parts, one after the other. */
  lemma {:induction false} SliceByAppend(a: seq<Record>, b: seq<Record>, sType: string, batch: string, team: string, task: string, annotator: Option<Cell>)
    ensures SliceBy(a + b, sType, batch, team, task, annotator)
         == SliceBy(a, sType, batch, team, task, annotator) + SliceBy(b, sType, batch, team, task, annotator)
  {
    if b == [] {
      assert a + b == a;
    } else {
      var front, last := b[..|b| - 1], b[|b| - 1];
      var sa := SliceBy(a, sType, batch, team, task, annotator);
      var sf := SliceBy(front, sType, batch, team, task, annotator);
      var tail := if Selected(last, sType, batch, team, task, annotator) then [last] else [];
      assert (a + b)[..|a + b| - 1] == a + front;
      assert SliceBy(b, sType, batch, team, task, annotator) == sf + tail;
      calc {
        SliceBy(a + b, sType, batch, team, task, annotator);
        SliceBy(a + front, sType, batch, team, task, annotator) + tail;
        { SliceByAppend(a, front, sType, batch, team, task, annotator); }
        (sa + sf) + tail;
        sa + (sf + tail);
      }
    }
  }

  /** Selecting again from a slice with the same arguments changes nothing. */
  lemma {:induction false} SliceByIdempotent(table: seq<Record>, sType: string, batch: string, team: string, task: string, annotator: Option<Cell>)
    ensures var s := SliceBy(table, sType, batch, team, task, annotator);
            SliceBy(s, sType, batch, team, task, annotator) == s
  {
    if table != [] {
      var rest := table[..|table| - 1];
      var last := table[|table| - 1];
      SliceByIdempotent(rest, sType, batch, team, task, annotator);
      var s := SliceBy(rest, sType, batch, team, task, annotator);
      if Selected(last, sType, batch, team, task, annotator) {
        SliceByAppend(s, [last], sType, batch, team, task, annotator);
      }
    }
  }

  /** A falsy annotator (None or the empty string) leaves the sheet_type unfiltered. */
  lemma {:induction false} SliceByFalsyAnnotator(table: seq<Record>, sType: string, batch: string, team: string, task: string, annotator: Option<Cell>)
    requires !Truthy(annotator)
    ensures SliceBy(table, sType, batch, team, task, annotator) == SliceBy(table, sType, batch, team, task, None)
  {
    if table != [] {
      SliceByFalsyAnnotator(table[..|table| - 1], sType, batch, team, task, annotator);
    }
  }

  /** A NaN annotator is truthy but equals no cell: its slice is empty. */
  lemma SliceByMissingAnnotator(table: seq<Record>, sType: string, batch: string, team: string, task: string)
    ensures SliceBy(table, sType, batch, team, task, Some(Missing)) == []
  {
  }
}

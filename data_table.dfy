/**
 * `ToDataTable`: the kept observations copied into a `DataTable` with the
 * three `double` columns `Attribute1`, `Attribute2` and `Attribute3` and one
 * row per observation. A table is modelled by its column names and its rows
 * of cells; the boxing of cells as `object` is not modelled.
 */
module DataTable {
  import opened OutlierFilter

  datatype Table = Table(columns: seq<string>, rows: seq<seq<real>>)

  /** Every row has one cell per column. */
  predicate IsGrid(t: Table)
  {
    forall i :: 0 <= i < |t.rows| ==> |t.rows[i]| == |t.columns|
  }

  const AttributeColumns: seq<string> := ["Attribute1", "Attribute2", "Attribute3"]

  /** The row that `Rows.Add(item.Attribute1, item.Attribute2, item.Attribute3)` appends. */
  function RowOf(o: Observation): seq<real>
  {
    [o.attribute1, o.attribute2, o.attribute3]
  }

  /** The rows of the table built from `data`, one per observation in list order. */
  function RowsOf(data: seq<Observation>): (rows: seq<seq<real>>)
    ensures |rows| == |data|
    ensures forall i :: 0 <= i < |data| ==> rows[i] == RowOf(data[i])
  {
    if data == [] then [] else [RowOf(data[0])] + RowsOf(data[1..])
  }

  /** Reads an observation back from a three-cell row. */
  function ObservationOf(row: seq<real>): Observation
    requires |row| == 3
  {
    Observation(row[0], row[1], row[2])
  }

  /** The observations held by three-cell rows, in row order. */
  function ObservationsOf(rows: seq<seq<real>>): (r: seq<Observation>)
    requires forall i :: 0 <= i < |rows| ==> |rows[i]| == 3
    ensures |r| == |rows|
    ensures forall i :: 0 <= i < |r| ==> r[i] == ObservationOf(rows[i])
  {
    if rows == [] then [] else [ObservationOf(rows[0])] + ObservationsOf(rows[1..])
  }

  /**
   * Adds the three columns, then one row per observation in list order. The
   * table holds exactly the observations it was given: reading them back
   * gives the input list.
   */
  method ToDataTable(data: seq<Observation>) returns (t: Table)
    ensures t.columns == AttributeColumns && IsGrid(t)
    ensures |t.rows| == |data|
    ensures forall i :: 0 <= i < |data| ==> t.rows[i] == RowOf(data[i])
    ensures t.rows == RowsOf(data)
    ensures ObservationsOf(t.rows) == data
  {
    var columns: seq<string> := [];
    columns := columns + ["Attribute1"];
    columns := columns + ["Attribute2"];
    columns := columns + ["Attribute3"];
    var rows: seq<seq<real>> := [];
    for i := 0 to |data|
      invariant |rows| == i
      invariant forall k :: 0 <= k < i ==> rows[k] == RowOf(data[k])
    {
      rows := rows + [RowOf(data[i])];
    }
    t := Table(columns, rows);
    assert forall i :: 0 <= i < |data| ==> ObservationOf(t.rows[i]) == data[i];
  }
}

/** Parsed spreadsheet rows and the records built from them. The server's
    getParsedFile and the upload page both turn an array row into an object by
    walking the header row with `forEach` and writing `obj[col] = row[idx]`;
    the chart views then read one property per axis from every record. */
module Rows {
  import opened Js

  /** A row record: property name to cell value (key order is not modelled). */
  type Row = map<string, Value>

  /** A header cell names a property unless it is a hole of the sparse header
      array (`Undefined`), which `forEach` skips. */
  predicate IsKey(col: Value)
  {
    !col.Undefined?
  }

  /** The property name a header cell writes to: `String(col)`. */
  function KeyOf(col: Value): string
  {
    ToStr(col)
  }

  predicate Names(col: Value, k: string)
  {
    IsKey(col) && KeyOf(col) == k
  }

  /** `row[idx]`: a cell past the end of a short row is `undefined`. */
  function CellAt(row: seq<Value>, i: nat): Value
  {
    if i < |row| then row[i] else Undefined
  }

  /** `record[key]`: an absent property reads as `undefined`. */
  function Get(record: Row, key: string): Value
  {
    if key in record then record[key] else Undefined
  }

  /** The property names a header row writes. */
  function ColumnKeys(columns: seq<Value>): set<string>
  {
    set i | 0 <= i < |columns| && IsKey(columns[i]) :: KeyOf(columns[i])
  }

  /** The last header index that names `k`. */
  function LastIndexNaming(columns: seq<Value>, k: string): (r: Option<nat>)
    ensures r.None? ==> forall i | 0 <= i < |columns| :: !Names(columns[i], k)
    ensures r.Some? ==> r.value < |columns| && Names(columns[r.value], k)
                        && forall j | r.value < j < |columns| :: !Names(columns[j], k)
  {
    if |columns| == 0 then None
    else if Names(columns[|columns| - 1], k) then Some(|columns| - 1)
    else LastIndexNaming(columns[..|columns| - 1], k)
  }

  /** The record a row becomes: one property per named header, holding the
      cell under the LAST header with that name. */
  function RowObject(columns: seq<Value>, row: seq<Value>): (obj: Row)
    ensures forall i | 0 <= i < |columns| && IsKey(columns[i]) :: KeyOf(columns[i]) in obj
  {
    map k | k in ColumnKeys(columns) :: CellAt(row, LastIndexNaming(columns, k).value)
  }

  /** Appending one header cell adds its name, if it has one, to the names
      the row writes. */
  lemma ColumnKeysSnoc(columns: seq<Value>, col: Value)
    ensures ColumnKeys(columns + [col])
            == if IsKey(col) then ColumnKeys(columns) + {KeyOf(col)} else ColumnKeys(columns)
  {
    var cs := columns + [col];
    forall k | k in ColumnKeys(cs)
      ensures k in ColumnKeys(columns) || (IsKey(col) && k == KeyOf(col))
    {
      var i :| 0 <= i < |cs| && IsKey(cs[i]) && KeyOf(cs[i]) == k;
      if i < |columns| { assert cs[i] == columns[i]; }
    }
    forall k | k in ColumnKeys(columns) ensures k in ColumnKeys(cs) {
      var i :| 0 <= i < |columns| && IsKey(columns[i]) && KeyOf(columns[i]) == k;
      assert cs[i] == columns[i];
    }
    if IsKey(col) {
      assert cs[|columns|] == col;
    }
  }

  /** Appending one header cell updates (or adds) just its own property. */
  lemma RowObjectSnoc(columns: seq<Value>, col: Value, row: seq<Value>)
    ensures RowObject(columns + [col], row)
            == if IsKey(col) then RowObject(columns, row)[KeyOf(col) := CellAt(row, |columns|)]
               else RowObject(columns, row)
  {
    var cs := columns + [col];
    assert cs[..|cs| - 1] == columns;
    ColumnKeysSnoc(columns, col);
  }

  /** The header walk of both call sites: for each header index, in order,
      `obj[col] = row[idx]`. */
  method ZipRow(columns: seq<Value>, row: seq<Value>) returns (obj: Row)
    ensures obj == RowObject(columns, row)
  {
    obj := map[];
    var idx := 0;
    while idx < |columns|
      invariant 0 <= idx <= |columns|
      invariant obj == RowObject(columns[..idx], row)
    {
      RowObjectSnoc(columns[..idx], columns[idx], row);
      assert columns[..idx + 1] == columns[..idx] + [columns[idx]];
      if IsKey(columns[idx]) {
        obj := obj[KeyOf(columns[idx]) := CellAt(row, idx)];
      }
      idx := idx + 1;
    }
    assert columns[..|columns|] == columns;
  }

  /** `rows.map(row => zip)`: one record per row, in order. */
  method ZipRows(columns: seq<Value>, rows: seq<seq<Value>>) returns (data: seq<Row>)
    ensures |data| == |rows|
    ensures forall i | 0 <= i < |rows| :: data[i] == RowObject(columns, rows[i])
  {
    data := [];
    var i := 0;
    while i < |rows|
      invariant 0 <= i <= |rows|
      invariant |data| == i
      invariant forall j | 0 <= j < i :: data[j] == RowObject(columns, rows[j])
    {
      var obj := ZipRow(columns, rows[i]);
      data := data + [obj];
      i := i + 1;
    }
  }

  /** Every named header becomes a property; a later header with the same
      name overrides an earlier one; a cell missing from a short row reads as
      `undefined`. */
  lemma RowObjectCell(columns: seq<Value>, row: seq<Value>, i: nat)
    requires i < |columns| && IsKey(columns[i])
    requires forall j | i < j < |columns| :: !Names(columns[j], KeyOf(columns[i]))
    ensures KeyOf(columns[i]) in RowObject(columns, row)
    ensures RowObject(columns, row)[KeyOf(columns[i])] == CellAt(row, i)
    ensures i >= |row| ==> RowObject(columns, row)[KeyOf(columns[i])] == Undefined
  {
    var k := KeyOf(columns[i]);
    assert k in ColumnKeys(columns);
    assert Names(columns[i], k);
    assert LastIndexNaming(columns, k) == Some(i);
  }

  /** The record has exactly the named headers as properties. */
  lemma RowObjectKeys(columns: seq<Value>, row: seq<Value>, k: string)
    ensures k in RowObject(columns, row) <==> exists i | 0 <= i < |columns| :: Names(columns[i], k)
  {
  }

  /** With two headers of the same name, the earlier cell is lost: the
      property holds the cell of the later (or a still later) header. */
  lemma DuplicateHeaderLaterWins(columns: seq<Value>, row: seq<Value>, i: nat, j: nat)
    requires i < j < |columns| && IsKey(columns[i]) && IsKey(columns[j])
    requires KeyOf(columns[i]) == KeyOf(columns[j])
    ensures exists m | j <= m < |columns| :: RowObject(columns, row)[KeyOf(columns[i])] == CellAt(row, m)
  {
    var k := KeyOf(columns[i]);
    assert k in ColumnKeys(columns);
    var last := LastIndexNaming(columns, k);
    assert Names(columns[j], k);
    assert j <= last.value;
    assert RowObject(columns, row)[k] == CellAt(row, last.value);
  }

  predicate DistinctKeys(columns: seq<Value>)
  {
    && (forall i | 0 <= i < |columns| :: IsKey(columns[i]))
    && (forall i, j | 0 <= i < j < |columns| :: KeyOf(columns[i]) != KeyOf(columns[j]))
  }

  /** Reading the record back column by column gives the row again when the
      header names are distinct and the row is as long as the header row. */
  lemma RowObjectRoundTrip(columns: seq<Value>, row: seq<Value>)
    requires DistinctKeys(columns) && |row| == |columns|
    ensures seq(|columns|, i requires 0 <= i < |columns| => Get(RowObject(columns, row), KeyOf(columns[i]))) == row
  {
    forall i | 0 <= i < |columns|
      ensures Get(RowObject(columns, row), KeyOf(columns[i])) == row[i]
    {
      RowObjectCell(columns, row, i);
    }
  }

  // ---------------------------------------------------------------------------
  // Chart data

  /** What both chart views hand to the charting library: `labels` from the
      x-axis property and `data` from the y-axis property of every record. */
  datatype ChartData = ChartData(labels: seq<Value>, seriesLabel: Value, data: seq<Value>)

  function Project(records: seq<Row>, xAxis: Value, yAxis: Value): (c: ChartData)
    ensures |c.labels| == |records| && |c.data| == |records|
  {
    ChartData(seq(|records|, i requires 0 <= i < |records| => Get(records[i], KeyOf(xAxis))),
              yAxis,
              seq(|records|, i requires 0 <= i < |records| => Get(records[i], KeyOf(yAxis))))
  }

  /** Charting zipped rows by two header columns plots exactly those two
      spreadsheet columns, row by row. */
  lemma ProjectZippedColumns(columns: seq<Value>, rows: seq<seq<Value>>, x: nat, y: nat)
    requires DistinctKeys(columns) && x < |columns| && y < |columns|
    ensures var c := Project(seq(|rows|, i requires 0 <= i < |rows| => RowObject(columns, rows[i])),
                             columns[x], columns[y]);
            && (forall i | 0 <= i < |rows| :: c.labels[i] == CellAt(rows[i], x))
            && (forall i | 0 <= i < |rows| :: c.data[i] == CellAt(rows[i], y))
            && c.seriesLabel == columns[y]
  {
    var records := seq(|rows|, i requires 0 <= i < |rows| => RowObject(columns, rows[i]));
    var c := Project(records, columns[x], columns[y]);
    forall i | 0 <= i < |rows|
      ensures c.labels[i] == CellAt(rows[i], x) && c.data[i] == CellAt(rows[i], y)
    {
      DistinctCell(columns, rows[i], x);
      DistinctCell(columns, rows[i], y);
    }
  }

  /** Under distinct header names every header's property holds its own
      cell. */
  lemma DistinctCell(columns: seq<Value>, row: seq<Value>, x: nat)
    requires DistinctKeys(columns) && x < |columns|
    ensures Get(RowObject(columns, row), KeyOf(columns[x])) == CellAt(row, x)
  {
    RowObjectCell(columns, row, x);
  }

  /** The default axis `columns[i] || ''`. */
  function DefaultAxis(columns: seq<Value>, i: nat): (axis: Value)
    ensures axis == Str("") || (i < |columns| && axis == columns[i])
  {
    if i < |columns| && Truthy(columns[i]) then columns[i] else Str("")
  }

  /** A default axis is always a header cell or ''; it is header cell `i`
      exactly when that cell is truthy. */
  lemma DefaultAxisChoice(columns: seq<Value>, i: nat)
    ensures DefaultAxis(columns, i) == Str("") || (i < |columns| && DefaultAxis(columns, i) == columns[i])
    ensures (i < |columns| && Truthy(columns[i])) <==> (i < |columns| && DefaultAxis(columns, i) == columns[i] && Truthy(DefaultAxis(columns, i)))
  {
  }
}

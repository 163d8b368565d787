/**
 * The results table drawn for the unmatched records: one header row holding
 * the first unmatched record's column names, then one row of cell texts for
 * each unmatched record, one cell per header.
 */
module ResultTable {
  import opened Wrappers
  import opened Tables

  /** `v || ''`: a missing value (undefined) and the empty string both give ''. */
  function OrEmpty(v: Option<string>): (text: string)
    ensures v.None? ==> text == ""
    ensures v.Some? ==> text == v.value
  {
    match v
    case None => ""
    case Some(s) => if s == "" then "" else s
  }

  /** The text of the cell drawn for `header` in the row of `row`. */
  function CellText(row: Row, header: string): (text: string)
    ensures (exists k :: 0 <= k < |row| && row[k].name == header) ==>
              exists k :: 0 <= k < |row| && row[k] == Cell(header, text)
    ensures (forall k :: 0 <= k < |row| ==> row[k].name != header) ==> text == ""
  {
    OrEmpty(Lookup(row, header))
  }

  /** One drawn data row: one cell per header, in header order. */
  function ProjectRow(row: Row, headers: seq<string>): (cells: seq<string>)
    ensures |cells| == |headers|
    ensures forall j :: 0 <= j < |headers| ==> cells[j] == CellText(row, headers[j])
  {
    seq(|headers|, j requires 0 <= j < |headers| => CellText(row, headers[j]))
  }

  /** The whole drawn table; the script only draws it for a non-empty result. */
  function Projection(rows: seq<Row>): (table: seq<seq<string>>)
    requires |rows| > 0
    ensures |table| == |rows| + 1
    ensures table[0] == Keys(rows[0])
    ensures forall i :: 0 <= i < |rows| ==> table[i + 1] == ProjectRow(rows[i], table[0])
  {
    var headers := Keys(rows[0]);
    [headers] + seq(|rows|, i requires 0 <= i < |rows| => ProjectRow(rows[i], headers))
  }

  /**
   * Every cell of the table: the record's text under that header where the
   * record has the column, and '' where it does not.
   */
  lemma ProjectionCells(rows: seq<Row>, i: nat, j: nat)
    requires i < |rows| && j < |rows[0]|
    ensures |Projection(rows)[i + 1]| == |Projection(rows)[0]| == |rows[0]|
    ensures (exists k :: 0 <= k < |rows[i]| && rows[i][k].name == Projection(rows)[0][j]) ==>
              exists k :: 0 <= k < |rows[i]| && rows[i][k] == Cell(Projection(rows)[0][j], Projection(rows)[i + 1][j])
    ensures (forall k :: 0 <= k < |rows[i]| ==> rows[i][k].name != Projection(rows)[0][j]) ==>
              Projection(rows)[i + 1][j] == ""
  {
    KeysPermutation(rows[0]);
    var table := Projection(rows);
    assert table[i + 1] == ProjectRow(rows[i], table[0]);
    assert table[i + 1][j] == CellText(rows[i], table[0][j]);
  }

  /**
   * The row drawn for the first unmatched record shows its own cell texts:
   * under each header, the text of its cell of that name.
   */
  lemma ProjectionFirstRow(rows: seq<Row>)
    requires |rows| > 0
    ensures |Projection(rows)[1]| == |rows[0]|
    ensures forall j :: 0 <= j < |rows[0]| ==>
              exists k :: 0 <= k < |rows[0]| && rows[0][k] == Cell(Projection(rows)[0][j], Projection(rows)[1][j])
  {
    var headers := Keys(rows[0]);
    KeysPermutation(rows[0]);
    forall j | 0 <= j < |rows[0]|
      ensures exists k :: 0 <= k < |rows[0]| && rows[0][k] == Cell(headers[j], Projection(rows)[1][j])
    {
      assert headers[j] in multiset(Names(rows[0]));
      var k :| 0 <= k < |rows[0]| && Names(rows[0])[k] == headers[j];
      LookupOwnCell(rows[0], k);
    }
  }

  /** `headers.forEach(...)` appending one cell per header to a data row. */
  method BuildRow(row: Row, headers: seq<string>) returns (cells: seq<string>)
    ensures cells == ProjectRow(row, headers)
  {
    cells := [];
    var j := 0;
    while j < |headers|
      invariant 0 <= j <= |headers|
      invariant cells == ProjectRow(row, headers[..j])
    {
      cells := cells + [OrEmpty(Lookup(row, headers[j]))];
      j := j + 1;
      assert headers[..j] == headers[..j - 1] + [headers[j - 1]];
    }
    assert headers[..j] == headers;
  }

  /** The header row, then `uniqueRows.forEach(...)` appending one data row per record. */
  method BuildTable(rows: seq<Row>) returns (table: seq<seq<string>>)
    requires |rows| > 0
    ensures table == Projection(rows)
  {
    var headers := Keys(rows[0]);
    table := [headers];
    var i := 0;
    while i < |rows|
      invariant 0 <= i <= |rows|
      invariant |table| == i + 1 && table[0] == headers
      invariant forall k :: 0 <= k < i ==> table[k + 1] == ProjectRow(rows[k], headers)
    {
      var tr := BuildRow(rows[i], headers);
      table := table + [tr];
      i := i + 1;
    }
    assert forall k :: 0 <= k < |table| ==> table[k] == Projection(rows)[k];
  }
}

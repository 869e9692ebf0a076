/** The rows `populateTable` (script.js:238-255) writes into the data table,
    as values: a placeholder row when there are no records, otherwise one row
    of seven cells per record, in record order. */
module Table {
  import opened Options
  import opened JsNumber
  import opened CsvParser
  import opened Display
  import opened Aggregation

  /** A table cell: the fallback `N/A`, a value shown as text, or a loss
      shown as money (`'$' + amount.toLocaleString() + ' M'`). */
  datatype Cell = NotAvailable | Shown(text: string) | Money(amount: real)

  /** A table row: the placeholder row spanning `colspan` columns, or a row
      of cells. */
  datatype TableRow = Placeholder(message: string, colspan: nat) | DataRow(cells: seq<Cell>)

  /** The table's columns, in display order. */
  const Columns: seq<string> := ["title", "industry", "year", "type", "estimatedLoss", "relatedInitiativeFocus", "description"]

  /** The position of the money column. */
  const LossColumn: nat := 4

  /** The message of the placeholder row. */
  const NoData: string := "No data available."

  /** How many columns a row spans. */
  function Width(r: TableRow): nat {
    match r
    case Placeholder(_, colspan) => colspan
    case DataRow(cells) => |cells|
  }

  /** `${item[name] || 'N/A'}`. */
  function TextCell(e: Entry, name: string): Cell {
    match TextOf(e, name)
    case None => NotAvailable
    case Some(t) => Shown(t)
  }

  /** `${item.estimatedLoss != null ? '$' + … + ' M' : 'N/A'}`. */
  function MoneyCell(e: Entry): Cell {
    match LossOf(e)
    case None => NotAvailable
    case Some(x) => Money(x)
  }

  /** The row of one record: a money cell for the loss and a text cell for
      every other column, `N/A` exactly where the value is missing or falsy. */
  function RowOf(e: Entry): (r: TableRow)
    ensures r.DataRow? && |r.cells| == |Columns|
    ensures forall k :: 0 <= k < |Columns| && k != LossColumn ==>
              (r.cells[k].NotAvailable? <==> TextOf(e, Columns[k]).None?) && !r.cells[k].Money?
    ensures forall k :: 0 <= k < |Columns| && k != LossColumn && TextOf(e, Columns[k]).Some? ==>
              r.cells[k] == Shown(TextOf(e, Columns[k]).value)
    ensures LossOf(e).Some? ==> r.cells[LossColumn] == Money(LossOf(e).value)
    ensures LossOf(e).None? ==> r.cells[LossColumn] == NotAvailable
  {
    var cells := seq(|Columns|, k requires 0 <= k < |Columns| =>
      if k == LossColumn then MoneyCell(e) else TextCell(e, Columns[k]));
    assert cells[LossColumn] == MoneyCell(e);
    DataRow(cells)
  }

  /** `populateTable(lossData)`: with no records a single placeholder row
      spanning every column, otherwise one row per record in record order;
      every row spans exactly the table's columns. */
  method PopulateTable(lossData: seq<Entry>) returns (rows: seq<TableRow>)
    ensures |lossData| == 0 ==> rows == [Placeholder(NoData, |Columns|)]
    ensures |lossData| > 0 ==> |rows| == |lossData| && forall k :: 0 <= k < |rows| ==> rows[k] == RowOf(lossData[k])
    ensures forall k :: 0 <= k < |rows| ==> Width(rows[k]) == |Columns|
  {
    if |lossData| == 0 {
      return [Placeholder(NoData, |Columns|)];
    }
    rows := [];
    for i := 0 to |lossData|
      invariant |rows| == i
      invariant forall k :: 0 <= k < i ==> rows[k] == RowOf(lossData[k])
    {
      rows := rows + [RowOf(lossData[i])];
    }
  }

  /** On a parsed record the cells show what the parser stored: a text column
      its non-empty text, the year column the decimal year unless it is 0,
      and the money column the loss whenever the record has one. */
  lemma ParsedRowCells(e: Entry)
    requires WellTyped(e)
    ensures forall k :: 0 <= k < |Columns| && k != 2 && k != LossColumn ==>
              (RowOf(e).cells[k] == NotAvailable <==> Columns[k] !in e || e[Columns[k]].s == "")
    ensures forall k :: 0 <= k < |Columns| && k != 2 && k != LossColumn && Columns[k] in e && e[Columns[k]].s != "" ==>
              RowOf(e).cells[k] == Shown(e[Columns[k]].s)
    ensures "year" in e && e["year"].i != 0 ==> RowOf(e).cells[2] == Shown(ShowInt(e["year"].i))
    ensures "year" !in e || e["year"].i == 0 ==> RowOf(e).cells[2] == NotAvailable
    ensures "estimatedLoss" in e ==> RowOf(e).cells[LossColumn] == Money(e["estimatedLoss"].r)
    ensures "estimatedLoss" !in e ==> RowOf(e).cells[LossColumn] == NotAvailable
  {
    var r := RowOf(e);
    forall k | 0 <= k < |Columns| && k != 2 && k != LossColumn
      ensures r.cells[k] == NotAvailable <==> Columns[k] !in e || e[Columns[k]].s == ""
      ensures Columns[k] in e && e[Columns[k]].s != "" ==> r.cells[k] == Shown(e[Columns[k]].s)
    {
      if Columns[k] in e {
        assert FieldShape(Columns[k], e[Columns[k]]);
      }
    }
    if "year" in e {
      assert FieldShape("year", e["year"]);
    }
    if "estimatedLoss" in e {
      assert FieldShape("estimatedLoss", e["estimatedLoss"]);
    }
  }
}

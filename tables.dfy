/**
 * The data the editor works on: a table parsed from one worksheet, a named
 * sheet of an output workbook, and the handle on an uploaded workbook.
 * Parsing and serialising the spreadsheet container are not modelled: a
 * handle carries its sheet names and a parse function that either yields a
 * table or fails (None), exactly as `xl.parse(name)` returns or raises.
 */
module Tables {
  import opened Wrappers

  /** A cell value; the concrete value types are stand-ins. */
  datatype Cell = Blank | Text(text: string) | Number(number: int) | Flag(flag: bool)

  /** A table: the header (column names, in order) and the rows. */
  datatype Table = Table(columns: seq<string>, rows: seq<seq<Cell>>)

  /** The table with no header and no rows (what `pd.DataFrame()` builds). */
  const EmptyTable: Table := Table([], [])

  /** One sheet of an output workbook: its name and its content. */
  type Sheet = (string, Table)

  /**
   * An opened workbook: its sheet names in file order and the means to
   * materialise one sheet. `parse(n) == None` means parsing sheet n raised.
   */
  datatype ExcelFile = ExcelFile(sheetNames: seq<string>, parse: string -> Option<Table>)

  /** The (rows, columns) shape of a table, as `df.shape` reports it. */
  function Shape(t: Table): (nat, nat)
  {
    (|t.rows|, |t.columns|)
  }

  /** The sheet names of a workbook, in the order they were written. */
  function SheetNames(ws: seq<Sheet>): seq<string>
  {
    seq(|ws|, k requires 0 <= k < |ws| => ws[k].0)
  }

  /** No name occurs twice. */
  predicate Distinct(names: seq<string>)
  {
    forall i, j :: 0 <= i < j < |names| ==> names[i] != names[j]
  }
}

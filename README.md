# Excel sheet editor: workbook assembly and download guards

A Dafny model of the two pieces of logic that belong to the Streamlit Excel
editor itself: the rule `write_workbook` uses to build the output workbook,
and the guard chain in `main` that decides whether a modified workbook is
offered for download.

- `wrappers.dfy`: the `Option` type. `None` stands for a call that raised.
- `tables.dfy` (module `Tables`): a `Table` (header and rows), a `Sheet`
  (a name paired with a table), and the workbook handle `ExcelFile`. The
  handle holds the sheet names in file order and a parse function
  `string -> Option<Table>` standing in for `xl.parse`.
- `writer.dfy` (module `Writer`): `Assembled` specifies the output
  workbook. `WriteWorkbook` is the source's loop. It starts a buffer with the
  edited sheet, then appends one sheet per original name: it skips the
  selected name and writes the empty table when the re-parse fails. Its
  postcondition ties the buffer to `Assembled`. The lemmas state what the
  output workbook is: the edited sheet comes first, the other sheets keep
  their order, no sheet is lost, untouched sheets are isolated from the
  edit, and a failed parse becomes an empty table.
- `shell.dfy` (module `Shell`): `RunPage`, the guard chain of `main` with early returns.
  Its outcome is one of: no file, load failure, empty workbook, empty
  selection, unreadable sheet, or a download. A download carries the
  metrics, the assembled workbook and the file name `"modifié_" + name`.

Abstracted inputs. The uploaded file is an `Option<UploadedFile>`: its name,
plus the opened workbook, or `None` when opening raised. The sheet picked in
the selector is a parameter. The selector only offers the workbook's own
names, and `SelectionOffered` states that. The capability probe for the rich
grid is a boolean. What the user does in either grid is an arbitrary function
from the parsed table to the edited table.

Three behaviours of the code worth noting:
- The code has a guard that returns silently when the selected name is empty
  (app.py:128-129). It is modelled as `NoSelection`.
- A workbook that fails to open is not turned back into the "no file" state.
  `load_excel` shows an error and re-raises (app.py:40-46, 120), so the run
  ends in `LoadFailed`.
- An empty sheet list shows an error and returns (app.py:122-124). Nothing
  more happens in the code.

## Model

| member | source | states |
|---|---|---|
| `Writer.WriteWorkbook` | app.py:78-93 | the buffer built by the loop equals `Assembled(edits, sheetName, names, parse)` and its first sheet is the edited table under the selected name |
| `Writer.AssembledLayout` | app.py:82-87 | the first sheet is `(selected, edits)` wherever the sheet sat originally; the written names are `[selected]` followed by the other names in original order; no later sheet carries the selected name |
| `Writer.OthersConcat` | app.py:85-87 | skipping the selected name distributes over concatenation, so the pass-through names keep their original relative order |
| `Writer.OrderPreserved` | app.py:85-92 | for originals `a + b`, the written names are the selected name, then the pass-through names of `a`, then those of `b` |
| `Writer.OthersCount` | app.py:85-87 | each name other than the selected one is passed through exactly as many times as it occurs in the original; the selected name never is |
| `Writer.OthersMembership` | app.py:85-87 | a name is passed through if and only if it is an original name other than the selected one |
| `Writer.OthersDistinct` | app.py:85-87 | distinct original names give distinct pass-through names |
| `Writer.OthersLength` | app.py:85-87 | for distinct names that contain the selected one, exactly one name is skipped |
| `Writer.CopiedAt` | app.py:85-92 | the k-th appended sheet is the k-th non-selected name, paired with what re-parsing it yields (its table, or the empty table on failure) |
| `Writer.SheetSetPreserved` | app.py:85-92 | for distinct names that contain the selected one, the output has as many sheets as the input, no repeated name, and the same set of names |
| `Writer.PassThroughContent` | app.py:88-92 | every sheet after the first is an original sheet; it holds exactly its parsed table when parsing succeeds (the edited table plays no part), and the empty table when parsing fails |
| `Writer.FailureSubstituted` | app.py:88-92 | a non-selected original sheet whose parse fails is still written, as `(name, EmptyTable)` |
| `Writer.NamesIndependentOfParse` | app.py:85-92 | which names are written, and in what order, does not depend on any parse result, so a failure never drops a sheet or stops the loop |
| `Writer.UneditedRoundTrip` | app.py:82-92 | when every sheet parses and the edited table equals the selected sheet's content, every written sheet holds exactly what its original sheet parses to |
| `Shell.RunPage` | app.py:114-160 | no upload gives `NoFile`; a failed open gives `LoadFailed`; no sheets gives `EmptyWorkbook`; an empty selection gives `NoSelection`; a failed parse of the selected sheet gives `SheetUnreadable(selection)`; a download happens if and only if all guards pass, and then carries the pre-edit table's shape, the workbook assembled from the grid's result, and `DownloadName(upload name)` |
| `Shell.DownloadName` | app.py:158 | the offered name is the marker `"modifié_"` followed by the uploaded name, which can be recovered from it |
| `Shell.DownloadNameInjective` | app.py:158 | distinct uploaded names are offered under distinct download names (a corollary of `DownloadName`'s recovery clause, proved with an empty body) |
| `Shell.DownloadKeepsEverySheet` | app.py:120-154 | when all guards pass and the workbook's names are distinct, the offered workbook starts with the edited sheet and has the same number of sheets and the same names as the upload |
| `Shell.ExampleScenario` | app.py:82-92 | for sheets Data and Notes with Data edited, the output is the edited Data followed by Notes unchanged |

## Left out

- Excel parsing and writing (`pd.ExcelFile`, `xl.parse`, `pd.ExcelWriter`, `to_excel`, openpyxl, `io.BytesIO`) are foreign library calls. A workbook is a sequence of named tables, parsing is an `Option`-valued function, and the bytes are not modelled.
- The output workbook is the sequence of sheets in the order `to_excel` is called. Sheet names are assumed unique, as the container format guarantees. With duplicate names, `WriteWorkbook` and `OthersCount` would list a name twice, where `ExcelWriter` would instead write over the existing sheet.
- Serialisation failures inside `to_excel`, such as names the container refuses, are not modelled. The model only covers parse failures.
- `try_import_aggrid` (app.py:28-37) is an import probe. It becomes the boolean `aggridAvailable`.
- `build_aggrid_table` and `build_data_editor_table` (app.py:49-75) are UI widgets. Each becomes an arbitrary function from the parsed table to the edited table. The rich grid may return rows sorted or filtered, and the basic grid may add or remove rows. The model allows both because it puts no constraint on the function.
- `load_excel` (app.py:40-46) only wraps a library constructor. Its success or failure is part of the `UploadedFile` input.
- Streamlit rendering: page set-up, titles, captions, sidebar text, the metric widgets, the download button mechanics and the MIME string. The metrics are modelled only as the shape the widgets are given. The message texts are not modelled; only their kind is.
- Cell value types: pandas floats, dates and NaN. `Cell` is a stand-in.
- The table invariant that every row has as many cells as there are columns. No operation here depends on it.
- Sessions, re-runs on each interaction, and the state kept by widgets between re-runs. The model covers one run of the page.

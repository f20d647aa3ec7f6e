/**
 * The interaction shell (`main`): a chain of guards with early returns that
 * decides whether the edited workbook is offered for download at all.
 * Rendering, widgets and the grid are abstract: the grid is whichever of
 * two edit functions the capability flag selects, applied to the parsed
 * table; the uploader hands over a file name and the opened workbook (None
 * when opening it raised).
 */
module Shell {
  import opened Wrappers
  import opened Tables
  import opened Writer

  /** An uploaded file: its name and the result of opening it as a workbook. */
  datatype UploadedFile = UploadedFile(name: string, loaded: Option<ExcelFile>)

  /** What one run of the page ends with. */
  datatype Outcome =
    | NoFile                          // info message, early return
    | LoadFailed                      // error message, the exception propagates
    | EmptyWorkbook                   // error message, early return
    | NoSelection                     // the selected name is empty: silent return
    | SheetUnreadable(sheet: string)  // error message naming the sheet, early return
    | Download(metrics: (nat, nat), workbook: seq<Sheet>, fileName: string)

  /** The marker put in front of the uploaded file's name. */
  const EditPrefix: string := "modifié_"

  /** The name the modified workbook is offered under. */
  function DownloadName(uploaded: string): (r: string)
    ensures |r| == |EditPrefix| + |uploaded|
    ensures r[..|EditPrefix|] == EditPrefix && r[|EditPrefix|..] == uploaded
  {
    EditPrefix + uploaded
  }

  /** Distinct uploads are offered under distinct names. */
  lemma DownloadNameInjective(a: string, b: string)
    requires DownloadName(a) == DownloadName(b)
    ensures a == b
  {
  }

  /** The sheet selector only offers the workbook's own sheet names. */
  predicate SelectionOffered(upload: Option<UploadedFile>, selection: string)
  {
    (upload.Some? && upload.value.loaded.Some? && upload.value.loaded.value.sheetNames != []) ==>
      selection in upload.value.loaded.value.sheetNames
  }

  /** Every guard passes: a file, a workbook that opens, a sheet, a non-empty selection that parses. */
  predicate AllGuardsPass(upload: Option<UploadedFile>, selection: string)
  {
    && upload.Some?
    && upload.value.loaded.Some?
    && upload.value.loaded.value.sheetNames != []
    && selection != ""
    && upload.value.loaded.value.parse(selection).Some?
  }

  /**
   * One run of the page. `aggridAvailable` is the result of the capability
   * probe; `richEdit` and `basicEdit` are what the user does in either grid.
   */
  method RunPage(upload: Option<UploadedFile>, selection: string, aggridAvailable: bool,
              richEdit: Table -> Table, basicEdit: Table -> Table) returns (outcome: Outcome)
    requires SelectionOffered(upload, selection)
    ensures outcome == NoFile <==> upload.None?
    ensures outcome == LoadFailed <==> upload.Some? && upload.value.loaded.None?
    ensures outcome == EmptyWorkbook <==>
              upload.Some? && upload.value.loaded.Some? && upload.value.loaded.value.sheetNames == []
    ensures outcome == NoSelection <==>
              upload.Some? && upload.value.loaded.Some? && upload.value.loaded.value.sheetNames != []
              && selection == ""
    ensures outcome.SheetUnreadable? <==>
              upload.Some? && upload.value.loaded.Some? && upload.value.loaded.value.sheetNames != []
              && selection != "" && upload.value.loaded.value.parse(selection).None?
    ensures outcome.SheetUnreadable? ==> outcome.sheet == selection
    ensures outcome.Download? <==> AllGuardsPass(upload, selection)
    ensures outcome.Download? ==>
              var xl := upload.value.loaded.value;
              var df := xl.parse(selection).value;
              var edited := if aggridAvailable then richEdit(df) else basicEdit(df);
              && outcome.fileName == DownloadName(upload.value.name)
              && outcome.metrics == Shape(df)
              && outcome.workbook == Assembled(edited, selection, xl.sheetNames, xl.parse)
  {
    if upload.None? {
      return NoFile;
    }
    var uploaded := upload.value;
    if uploaded.loaded.None? {
      return LoadFailed;
    }
    var xl := uploaded.loaded.value;
    var sheets := xl.sheetNames;
    if sheets == [] {
      return EmptyWorkbook;
    }
    var sheetName := selection;
    if sheetName == "" {
      return NoSelection;
    }
    var df: Table;
    match xl.parse(sheetName) {
      case None =>
        return SheetUnreadable(sheetName);
      case Some(t) =>
        df := t;
    }
    var metrics := Shape(df);
    var editedDf: Table;
    if aggridAvailable {
      editedDf := richEdit(df);
    } else {
      editedDf := basicEdit(df);
    }
    var dataBytes := WriteWorkbook(editedDf, sheetName, xl);
    outcome := Download(metrics, dataBytes, DownloadName(uploaded.name));
  }

  /**
   * The offered workbook: the edited table first under the selected name,
   * then one sheet per other original name, so the same (distinct) names as
   * the upload.
   */
  lemma DownloadKeepsEverySheet(upload: Option<UploadedFile>, selection: string, edited: Table)
    requires AllGuardsPass(upload, selection) && SelectionOffered(upload, selection)
    requires Distinct(upload.value.loaded.value.sheetNames)
    ensures var xl := upload.value.loaded.value;
      var out := Assembled(edited, selection, xl.sheetNames, xl.parse);
      && out[0] == (selection, edited)
      && |out| == |xl.sheetNames|
      && (set k | 0 <= k < |out| :: out[k].0) == set n | n in xl.sheetNames
  {
    var xl := upload.value.loaded.value;
    AssembledLayout(edited, selection, xl.sheetNames, xl.parse);
    SheetSetPreserved(edited, selection, xl.sheetNames, xl.parse);
  }

  /** A worked example: sheets Data and Notes, cell a1 of Data edited. */
  lemma ExampleScenario(notes: Table)
    ensures
      var data := Table(["a", "b"], [[Number(1), Number(2)], [Number(3), Number(4)]]);
      var edited := Table(["a", "b"], [[Number(10), Number(2)], [Number(3), Number(4)]]);
      var parse := (n: string) => if n == "Data" then Some(data) else if n == "Notes" then Some(notes) else None;
      Assembled(edited, "Data", ["Data", "Notes"], parse) == [("Data", edited), ("Notes", notes)]
  {
  }
}

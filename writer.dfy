/**
 * The workbook writer (`write_workbook`): the edited table goes first under
 * the selected name, then every other sheet of the original workbook in its
 * original order, re-parsed, with an empty table standing in for a sheet
 * whose re-parse fails.
 */
module Writer {
  import opened Wrappers
  import opened Tables

  /** What is written for a pass-through sheet: its parsed content, or the empty table when parsing raised. */
  function Reparsed(parse: string -> Option<Table>, name: string): Table
  {
    match parse(name)
    case Some(t) => t
    case None => EmptyTable
  }

  /** The original sheet names other than `selected`, in their original order. */
  function Others(names: seq<string>, selected: string): seq<string>
  {
    if names == [] then []
    else (if names[0] == selected then [] else [names[0]]) + Others(names[1..], selected)
  }

  /** The pass-through sheets the loop appends after the edited sheet. */
  function Copied(names: seq<string>, selected: string, parse: string -> Option<Table>): seq<Sheet>
  {
    if names == [] then []
    else (if names[0] == selected then [] else [(names[0], Reparsed(parse, names[0]))])
         + Copied(names[1..], selected, parse)
  }

  /** The whole output workbook, sheet by sheet. */
  function Assembled(edits: Table, selected: string, names: seq<string>, parse: string -> Option<Table>): seq<Sheet>
  {
    [(selected, edits)] + Copied(names, selected, parse)
  }

  /**
   * The writer: starts a fresh buffer with the edited sheet, then appends
   * one sheet per original name, skipping the selected one and substituting
   * the empty table where the re-parse fails.
   */
  method WriteWorkbook(edits: Table, sheetName: string, xl: ExcelFile) returns (output: seq<Sheet>)
    ensures output == Assembled(edits, sheetName, xl.sheetNames, xl.parse)
    ensures |output| >= 1 && output[0] == (sheetName, edits)
  {
    output := [(sheetName, edits)];
    for i := 0 to |xl.sheetNames|
      invariant output == [(sheetName, edits)] + Copied(xl.sheetNames[..i], sheetName, xl.parse)
    {
      CopiedSnoc(xl.sheetNames[..i], xl.sheetNames[i], sheetName, xl.parse);
      assert xl.sheetNames[..i + 1] == xl.sheetNames[..i] + [xl.sheetNames[i]];
      var name := xl.sheetNames[i];
      if name == sheetName {
        continue;
      }
      var dfOther: Table;
      match xl.parse(name) {
        case Some(t) =>
          dfOther := t;
        case None =>
          dfOther := EmptyTable;
      }
      output := output + [(name, dfOther)];
    }
    assert xl.sheetNames[..|xl.sheetNames|] == xl.sheetNames;
  }

  // ---------------------------------------------------------------------
  // Lemmas about the names that are passed through

  /** Filtering distributes over concatenation: sheets keep their relative order. */
  lemma {:induction false} OthersConcat(a: seq<string>, b: seq<string>, selected: string)
    ensures Others(a + b, selected) == Others(a, selected) + Others(b, selected)
  {
    if a == [] {
      assert a + b == b;
    } else {
      assert (a + b)[0] == a[0];
      assert (a + b)[1..] == a[1..] + b;
      OthersConcat(a[1..], b, selected);
    }
  }

  /**
   * Every name other than `selected` is passed through exactly as often as
   * it occurs in the original; `selected` is never passed through.
   */
  lemma {:induction false} OthersCount(names: seq<string>, selected: string)
    ensures forall x :: multiset(Others(names, selected))[x] == if x == selected then 0 else multiset(names)[x]
  {
    if names != [] {
      OthersCount(names[1..], selected);
      assert names == [names[0]] + names[1..];
      assert multiset(names) == multiset{names[0]} + multiset(names[1..]);
    }
  }

  lemma {:induction false} OthersMembership(names: seq<string>, selected: string)
    ensures forall x :: x in Others(names, selected) <==> x in names && x != selected
  {
    OthersCount(names, selected);
    forall x
      ensures x in Others(names, selected) <==> x in names && x != selected
    {
      assert x in Others(names, selected) <==> multiset(Others(names, selected))[x] > 0;
      assert x in names <==> multiset(names)[x] > 0;
    }
  }

  lemma {:induction false} OthersDistinct(names: seq<string>, selected: string)
    requires Distinct(names)
    ensures Distinct(Others(names, selected))
  {
    if names != [] {
      OthersDistinct(names[1..], selected);
      OthersMembership(names[1..], selected);
      assert names[0] !in names[1..] by {
        forall j | 0 <= j < |names[1..]| ensures names[1..][j] != names[0] {
          assert names[1..][j] == names[j + 1];
        }
      }
    }
  }

  /** With distinct names containing `selected`, exactly one sheet is skipped. */
  lemma OthersLength(names: seq<string>, selected: string)
    requires Distinct(names) && selected in names
    ensures |Others(names, selected)| == |names| - 1
  {
    OthersCount(names, selected);
    DistinctOnce(names, selected);
    assert |multiset(Others(names, selected))| == |multiset(names)| - 1 by {
      assert multiset(Others(names, selected)) == multiset(names) - multiset{selected};
    }
  }

  /** In a sequence without repetitions a member occurs once. */
  lemma {:induction false} DistinctOnce(names: seq<string>, x: string)
    requires Distinct(names) && x in names
    ensures multiset(names)[x] == 1
  {
    assert names == [names[0]] + names[1..];
    assert multiset(names) == multiset{names[0]} + multiset(names[1..]);
    assert forall j :: 0 <= j < |names[1..]| ==> names[1..][j] == names[j + 1];
    if names[0] == x {
      assert x !in names[1..];
    } else {
      DistinctOnce(names[1..], x);
    }
  }

  // ---------------------------------------------------------------------
  // Lemmas about the pass-through sheets

  /** One more loop iteration appends at most one sheet. */
  lemma {:induction false} CopiedSnoc(names: seq<string>, name: string, selected: string, parse: string -> Option<Table>)
    ensures Copied(names + [name], selected, parse)
         == Copied(names, selected, parse) + (if name == selected then [] else [(name, Reparsed(parse, name))])
  {
    if names == [] {
      assert names + [name] == [name];
    } else {
      assert (names + [name])[0] == names[0];
      assert (names + [name])[1..] == names[1..] + [name];
      CopiedSnoc(names[1..], name, selected, parse);
    }
  }

  /**
   * The k-th pass-through sheet is the k-th non-selected name, written with
   * what re-parsing it gives (its content, or the empty table on failure).
   */
  lemma {:induction false} CopiedAt(names: seq<string>, selected: string, parse: string -> Option<Table>)
    ensures |Copied(names, selected, parse)| == |Others(names, selected)|
    ensures forall k :: 0 <= k < |Others(names, selected)| ==>
              Copied(names, selected, parse)[k] == (Others(names, selected)[k], Reparsed(parse, Others(names, selected)[k]))
  {
    if names != [] {
      CopiedAt(names[1..], selected, parse);
    }
  }

  // ---------------------------------------------------------------------
  // Properties of the output workbook

  /**
   * Layout: the edited table comes first under the selected name, whatever
   * its original position; then the other sheets in their original order;
   * the selected name is never written a second time.
   */
  lemma AssembledLayout(edits: Table, selected: string, names: seq<string>, parse: string -> Option<Table>)
    ensures var out := Assembled(edits, selected, names, parse);
      && |out| >= 1 && out[0] == (selected, edits)
      && SheetNames(out) == [selected] + Others(names, selected)
      && forall k :: 1 <= k < |out| ==> out[k].0 != selected
  {
    var out := Assembled(edits, selected, names, parse);
    CopiedAt(names, selected, parse);
    OthersMembership(names, selected);
    assert SheetNames(out) == [selected] + Others(names, selected) by {
      forall k | 1 <= k < |out| ensures SheetNames(out)[k] == Others(names, selected)[k - 1] {
        assert out[k] == Copied(names, selected, parse)[k - 1];
      }
    }
    forall k | 1 <= k < |out| ensures out[k].0 != selected {
      assert out[k].0 == Others(names, selected)[k - 1];
      assert out[k].0 in Others(names, selected);
    }
  }

  /** Relative order: splitting the original names splits the pass-through sheets the same way. */
  lemma OrderPreserved(edits: Table, selected: string, a: seq<string>, b: seq<string>, parse: string -> Option<Table>)
    ensures SheetNames(Assembled(edits, selected, a + b, parse))
         == [selected] + Others(a, selected) + Others(b, selected)
  {
    AssembledLayout(edits, selected, a + b, parse);
    OthersConcat(a, b, selected);
  }

  /**
   * Sheet set preservation: when the original names are distinct and the
   * selected name is one of them, the output has one sheet per original
   * name, no name twice, and the same set of names.
   */
  lemma SheetSetPreserved(edits: Table, selected: string, names: seq<string>, parse: string -> Option<Table>)
    requires Distinct(names) && selected in names
    ensures var out := Assembled(edits, selected, names, parse);
      && |out| == |names|
      && Distinct(SheetNames(out))
      && (set k | 0 <= k < |out| :: out[k].0) == set n | n in names
  {
    var out := Assembled(edits, selected, names, parse);
    AssembledLayout(edits, selected, names, parse);
    OthersLength(names, selected);
    OthersDistinct(names, selected);
    OthersMembership(names, selected);
    var os := Others(names, selected);
    assert Distinct(SheetNames(out)) by {
      forall i, j | 0 <= i < j < |out| ensures SheetNames(out)[i] != SheetNames(out)[j] {
        if i > 0 {
          assert SheetNames(out)[i] == os[i - 1] && SheetNames(out)[j] == os[j - 1];
        }
      }
    }
    forall n | n in names ensures n in (set k | 0 <= k < |out| :: out[k].0) {
      if n == selected {
        assert out[0].0 == n;
      } else {
        assert n in os;
        var k :| 0 <= k < |os| && os[k] == n;
        assert out[k + 1].0 == SheetNames(out)[k + 1] == n;
      }
    }
    forall k | 0 <= k < |out| ensures out[k].0 in names {
      if k > 0 {
        assert out[k].0 == SheetNames(out)[k] == os[k - 1];
      }
    }
  }

  /**
   * Isolation and failure substitution: every sheet after the first carries
   * exactly what re-parsing its name yields: its parsed table when parsing
   * succeeds (the edited table plays no part), the empty table when it fails.
   */
  lemma PassThroughContent(edits: Table, selected: string, names: seq<string>, parse: string -> Option<Table>)
    ensures var out := Assembled(edits, selected, names, parse);
      forall k :: 1 <= k < |out| ==>
        && out[k].0 in names
        && (parse(out[k].0).Some? ==> out[k].1 == parse(out[k].0).value)
        && (parse(out[k].0).None? ==> out[k].1 == EmptyTable)
  {
    var out := Assembled(edits, selected, names, parse);
    CopiedAt(names, selected, parse);
    OthersMembership(names, selected);
    forall k | 1 <= k < |out| ensures out[k].0 in names && out[k].1 == Reparsed(parse, out[k].0) {
      assert out[k] == Copied(names, selected, parse)[k - 1];
      assert Others(names, selected)[k - 1] in Others(names, selected);
    }
  }

  /**
   * A failed re-parse never aborts the write: every non-selected original
   * sheet whose parse fails is still written, as the empty table, and which
   * names are written does not depend on any parse result.
   */
  lemma FailureSubstituted(edits: Table, selected: string, names: seq<string>, parse: string -> Option<Table>, name: string)
    requires name in names && name != selected && parse(name).None?
    ensures (name, EmptyTable) in Assembled(edits, selected, names, parse)
  {
    var out := Assembled(edits, selected, names, parse);
    AssembledLayout(edits, selected, names, parse);
    PassThroughContent(edits, selected, names, parse);
    OthersMembership(names, selected);
    var k :| 0 <= k < |Others(names, selected)| && Others(names, selected)[k] == name;
    assert SheetNames(out)[k + 1] == name;
    assert out[k + 1] == (name, EmptyTable);
  }

  lemma NamesIndependentOfParse(edits: Table, selected: string, names: seq<string>,
                                parse1: string -> Option<Table>, parse2: string -> Option<Table>)
    ensures SheetNames(Assembled(edits, selected, names, parse1)) == SheetNames(Assembled(edits, selected, names, parse2))
  {
    AssembledLayout(edits, selected, names, parse1);
    AssembledLayout(edits, selected, names, parse2);
  }

  /**
   * Round trip: when every sheet parses and the edited table is the selected
   * sheet's own content, each written sheet holds exactly what its original
   * sheet parses to.
   */
  lemma UneditedRoundTrip(selected: string, names: seq<string>, parse: string -> Option<Table>)
    requires forall n :: n in names ==> parse(n).Some?
    requires parse(selected).Some?
    ensures var out := Assembled(parse(selected).value, selected, names, parse);
      forall k :: 0 <= k < |out| ==> parse(out[k].0) == Some(out[k].1)
  {
    PassThroughContent(parse(selected).value, selected, names, parse);
  }
}

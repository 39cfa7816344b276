/** What the importer makes of the workbooks the service itself produces.

    The export writes the header `Team, categories…, Total, Rank` and the
    importer keeps every header cell but the first and the last, so export
    and import are not inverses: importing an exported quiz adds a category
    named "Total". The import template has no Total column, so importing it
    keeps only its first category. A header naming a category twice, or a
    sheet naming a team twice, makes the import fail. */
module Reimport {
  import opened Wrappers
  import opened Domain
  import opened Store
  import opened Sheets
  import opened ExcelImport
  import ExcelExport
  import Quizzes

  /** A header row laid out as `Team, names…, Total, Rank` and then an empty
      cell reads back as the names followed by "Total". */
  lemma HeaderReadsBack(cells: Cells, names: seq<string>)
    requires At(cells, 4, 1) == Some(Str("Team"))
    requires forall j :: 0 <= j < |names| ==> At(cells, 4, j + 2) == Some(Str(names[j])) && names[j] != ""
    requires At(cells, 4, |names| + 2) == Some(Str("Total"))
    requires At(cells, 4, |names| + 3) == Some(Str("Rank"))
    requires At(cells, 4, |names| + 4) == None
    ensures CategoryNames(ReadRow(cells, 4, 1)) == names + ["Total"]
  {
    var row := ["Team"] + names + ["Total", "Rank"];
    forall i | 0 <= i < |row| ensures GetString(cells, 4, 1 + i) == row[i] && row[i] != "" {
      if 1 <= i <= |names| {
        assert row[i] == names[i - 1];
      }
    }
    ReadRowOf(cells, 4, 1, row);
    assert row[1..|row| - 1] == names + ["Total"];
  }

  /** The header the export lays out reads back as the category names and
      "Total", under the version "1.0". */
  lemma ExportedHeaderReadsBack(sheet: Sheet, quiz: Quiz, cols: seq<(Id, string)>)
    requires ExcelExport.QuizHeaderLaidOut(sheet, quiz, cols)
    requires forall k :: 0 <= k < |cols| ==> cols[k].1 != ""
    ensures GetString(sheet.cells, 1, 1) == "1.0"
    ensures CategoryNames(ReadRow(sheet.cells, 4, 1)) == ExcelExport.ColumnNames(cols) + ["Total"]
  {
    HeaderReadsBack(sheet.cells, ExcelExport.ColumnNames(cols));
  }

  /** Importing an exported quiz: the sheet carries the version "1.0", its
      header reads back as the quiz's category columns plus "Total", and the
      import resolves one category more than the quiz had, the last of them
      a visible category of the importing organization named "Total". */
  lemma ExportedQuizAddsTotal(
    t: Tables, orgId: Id, quizId: Id, formatDate: Time -> string,
    t': Tables, n: nat, orgId': Id, date: Time, now: Time)
    requires ExcelExport.QuizSheet(t, orgId, quizId, formatDate).Ok?
    requires forall k :: 0 <= k < |ExcelExport.CategoryColumns(t, quizId)| ==> ExcelExport.CategoryColumns(t, quizId)[k].1 != ""
    ensures var cells := ExcelExport.QuizSheet(t, orgId, quizId, formatDate).value.cells;
      var cols := ExcelExport.CategoryColumns(t, quizId);
      var plan := ImportPlan(t', n, orgId', cells, date, now);
      && GetString(cells, 1, 1) == "1.0"
      && CategoryNames(ReadRow(cells, 4, 1)) == ExcelExport.ColumnNames(cols) + ["Total"]
      && |plan.categoryIds| == |cols| + 1
      && FindCategory(plan.tables.categories, orgId', "Total").Some?
      && FindCategory(plan.tables.categories, orgId', "Total").value.id == plan.categoryIds[|cols|]
  {
    var sheet := ExcelExport.QuizSheet(t, orgId, quizId, formatDate).value;
    var cols := ExcelExport.CategoryColumns(t, quizId);
    var header := ExcelExport.ColumnNames(cols) + ["Total"];
    assert CategoryNames(ReadRow(sheet.cells, 4, 1)) == header && GetString(sheet.cells, 1, 1) == "1.0" by {
      ExcelExport.QuizSheetLayout(t, orgId, quizId, formatDate);
      ExportedHeaderReadsBack(sheet, FindQuiz(t.quizzes, quizId).value, cols);
    }
    CategoryResolved(t'.categories, orgId', header, n + 1, now, |cols|);
  }

  /** Importing the template keeps only its first category (the template has
      no Total column), and reads one team, "Team A", whose points are 0. */
  lemma TemplateDropsLastCategory(version: string, today: string, t: Tables, n: nat, orgId: Id, date: Time, now: Time)
    ensures var cells := Template(version, today).cells;
      var plan := ImportPlan(t, n, orgId, cells, date, now);
      && GetString(cells, 1, 1) == version
      && CategoryNames(ReadRow(cells, 4, 1)) == ["Category1"]
      && ReadColumn(cells, 1, 5) == ["Team A"]
      && CellPoints(cells, 5, 2) == 0
      && |plan.categoryIds| == 1 && |plan.teamIds| == 1
  {
    var cells := Template(version, today).cells;
    ReadRowOf(cells, 4, 1, ["Team", "Category1", "Category2"]);
    assert ["Team", "Category1", "Category2"][1..2] == ["Category1"];
    ReadColumnOf(cells, 1, 5, ["Team A"]);
  }

  /** A header naming a category twice resolves both to one category, so the
      second link of the quiz to it is refused and the import reports the
      tracking conflict. */
  lemma RepeatedCategoryConflicts(
    t: Tables, n: nat, orgId: Id, cells: Cells, date: Time, now: Time,
    success: bool, error: Option<string>, after: Tables, i: nat, j: nat)
    requires var names := CategoryNames(ReadRow(cells, 4, 1));
      i < j < |names| && names[i] == names[j]
    requires Imported(t, n, orgId, cells, date, now, success, error, after)
    ensures !success && error == Some(TrackingConflictMessage)
  {
    var names := CategoryNames(ReadRow(cells, 4, 1));
    SameNameSameCategory(t.categories, orgId, names, n + 1, now, i, j);
    assert !Quizzes.Distinct(ImportPlan(t, n, orgId, cells, date, now).categoryIds);
  }

  /** Row `k` of `m` cells each, cell `c`, lies before row `k + 1`. */
  lemma RowCellBelow(k: nat, m: nat, c: nat, rows: nat)
    requires c < m && k < rows
    ensures k * m + c < rows * m
  {
    assert (k + 1) * m <= rows * m;
  }

  /** The entries of the first `k + 1` rows are those of the first `k` and
      then those of row `k`. */
  lemma ImportEntriesUpTo(cells: Cells, orgId: Id, quizId: Id, teamIds: seq<Id>, catIds: seq<Id>, now: Time, k: nat)
    requires k < |teamIds|
    ensures ImportEntries(cells, orgId, quizId, teamIds[..k + 1], catIds, now)
         == ImportEntries(cells, orgId, quizId, teamIds[..k], catIds, now)
          + RowEntries(cells, 5 + k, orgId, quizId, teamIds[k], catIds, now)
  {
    var upto := teamIds[..k + 1];
    assert upto[..k] == teamIds[..k] && upto[k] == teamIds[k];
  }

  /** The entry of team row `k` for category `c` comes right after the
      entries of the rows above it. */
  lemma ImportEntriesAt(
    cells: Cells, orgId: Id, quizId: Id, teamIds: seq<Id>, catIds: seq<Id>, now: Time, k: nat, c: nat)
    requires k < |teamIds| && c < |catIds|
    ensures var es := ImportEntries(cells, orgId, quizId, teamIds, catIds, now);
      var above := |ImportEntries(cells, orgId, quizId, teamIds[..k], catIds, now)|;
      && above + c < |es|
      && es[above + c] == RowEntries(cells, 5 + k, orgId, quizId, teamIds[k], catIds, now)[c]
  {
    var front := ImportEntries(cells, orgId, quizId, teamIds[..k], catIds, now);
    var row := RowEntries(cells, 5 + k, orgId, quizId, teamIds[k], catIds, now);
    var es := ImportEntries(cells, orgId, quizId, teamIds, catIds, now);
    assert |front| + c < |es| && es[|front| + c] == row[c] by {
      var part := ImportEntries(cells, orgId, quizId, teamIds[..k + 1], catIds, now);
      ImportEntriesUpTo(cells, orgId, quizId, teamIds, catIds, now, k);
      ImportEntriesPrefix(cells, orgId, quizId, teamIds, catIds, now, k + 1);
      SeqPrefixAt(es, part, front, row, c);
    }
  }

  /** An element of the second part of a prefix. */
  lemma SeqPrefixAt<T>(es: seq<T>, part: seq<T>, front: seq<T>, row: seq<T>, c: nat)
    requires part == front + row && |part| <= |es| && es[..|part|] == part && c < |row|
    ensures |front| + c < |es| && es[|front| + c] == row[c]
  {
    assert es[..|part|][|front| + c] == part[|front| + c];
  }

  /** The first entry of row `k` is keyed by the row's team and the first
      category. */
  lemma FirstEntryKey(cells: Cells, orgId: Id, quizId: Id, teamIds: seq<Id>, catIds: seq<Id>, now: Time, k: nat)
    requires k < |teamIds| && |catIds| > 0
    ensures var es := ImportEntries(cells, orgId, quizId, teamIds, catIds, now);
      var above := |ImportEntries(cells, orgId, quizId, teamIds[..k], catIds, now)|;
      above < |es| && EntryKey(es[above]) == (orgId, quizId, teamIds[k], catIds[0])
  {
    ImportEntriesAt(cells, orgId, quizId, teamIds, catIds, now, k, 0);
  }

  /** Two rows for one team give two entries with one key. */
  lemma RepeatedTeamClashes(
    base: seq<ScoreEntry>, cells: Cells, orgId: Id, quizId: Id, teamIds: seq<Id>, catIds: seq<Id>, now: Time, i: nat, j: nat)
    requires i < j < |teamIds| && teamIds[i] == teamIds[j] && |catIds| > 0
    ensures !UniqueEntries(base + ImportEntries(cells, orgId, quizId, teamIds, catIds, now))
  {
    var entries := ImportEntries(cells, orgId, quizId, teamIds, catIds, now);
    var a := |ImportEntries(cells, orgId, quizId, teamIds[..i], catIds, now)|;
    var b := |ImportEntries(cells, orgId, quizId, teamIds[..j], catIds, now)|;
    assert a < b by {
      ImportEntriesLength(cells, orgId, quizId, teamIds[..i], catIds, now);
      ImportEntriesLength(cells, orgId, quizId, teamIds[..j], catIds, now);
      RowCellBelow(i, |catIds|, 0, j);
    }
    FirstEntryKey(cells, orgId, quizId, teamIds, catIds, now, i);
    FirstEntryKey(cells, orgId, quizId, teamIds, catIds, now, j);
    var all := base + entries;
    assert all[|base| + a] == entries[a] && all[|base| + b] == entries[b];
  }

  /** A sheet naming the same team in two rows, with at least one category,
      stages two entries for the same (organization, quiz, team, category),
      which the unique index of the score entries refuses: the import fails,
      with the save error unless the header already conflicted. */
  lemma RepeatedTeamFails(
    t: Tables, n: nat, orgId: Id, cells: Cells, date: Time, now: Time,
    success: bool, error: Option<string>, after: Tables, i: nat, j: nat)
    requires var rows := ReadColumn(cells, 1, 5);
      i < j < |rows| && rows[i] == rows[j]
    requires |CategoryNames(ReadRow(cells, 4, 1))| > 0
    requires Imported(t, n, orgId, cells, date, now, success, error, after)
    ensures !success
    ensures error == Some(SaveFailedMessage) || error == Some(TrackingConflictMessage)
  {
    var names := ReadColumn(cells, 1, 5);
    var header := CategoryNames(ReadRow(cells, 4, 1));
    var cats := ResolveCategories(t.categories, orgId, header, n + 1, now);
    var teams := ResolveTeams(t.teams, orgId, names, cats.next, now);
    TeamResolved(t.teams, orgId, names, cats.next, now, i);
    TeamResolved(t.teams, orgId, names, cats.next, now, j);
    var linked := Linked(WithQuiz(t, ImportedQuiz(n, orgId, cells, date, now)), cats.table, n, cats.ids);
    RepeatedTeamClashes(linked.scoreEntries, cells, orgId, n, teams.ids, cats.ids, now, i, j);
    assert !Indexed(ImportPlan(t, n, orgId, cells, date, now).tables);
  }
}

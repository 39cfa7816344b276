/** The Excel exports of the export/import service: a quiz's score sheet and a
    league's standings sheet. Each export reads the committed tables and
    writes a worksheet cell by cell; the method does so with the service's
    loops and is proved to produce the sheet the matching function describes,
    and the layout lemmas read the cells back from that sheet. */
module ExcelExport {
  import opened Wrappers
  import opened Domain
  import opened Store
  import opened Scoring
  import opened Sheets
  import Ordering
  import Quizzes
  import Statistics
  import Text

  // The category columns of a quiz.

  /** The quiz-category links of the quiz, in table order (the table has no
      query filter); there are as many as the summary counts. */
  function LinksOf(qcs: seq<QuizCategory>, quizId: Id): (r: seq<QuizCategory>)
    ensures forall x :: x in r <==> x in qcs && x.quizId == quizId
    ensures |r| == Statistics.QuizCategoryCount(qcs, quizId)
  {
    Ordering.WhereMembers(qcs, Statistics.OfQuizOf(quizId));
    Ordering.WhereCount(qcs, Statistics.OfQuizOf(quizId));
    Ordering.Where(qcs, Statistics.OfQuizOf(quizId))
  }

  function NegatedOrderIndex(qc: QuizCategory): int {
    -qc.orderIndex
  }

  /** `OrderBy(qc => qc.OrderIndex)`: a stable ascending sort, obtained as the
      stable descending sort on the negated index. */
  function ByOrderIndex(qcs: seq<QuizCategory>): (r: seq<QuizCategory>)
    ensures multiset(r) == multiset(qcs)
    ensures forall i, j :: 0 <= i < j < |r| ==> r[i].orderIndex <= r[j].orderIndex
  {
    var r := Ordering.SortDesc(qcs, NegatedOrderIndex);
    assert Ordering.SortedDesc(r, NegatedOrderIndex);
    r
  }

  function LinkCategoryIds(qcs: seq<QuizCategory>): (ids: seq<Id>)
    ensures |ids| == |qcs| && forall i :: 0 <= i < |qcs| ==> ids[i] == qcs[i].categoryId
  {
    if qcs == [] then [] else LinkCategoryIds(qcs[..|qcs| - 1]) + [qcs[|qcs| - 1].categoryId]
  }

  /** The name of the category with the id, deleted or not. */
  function CategoryName(cats: seq<Category>, id: Id): Option<string> {
    if cats == [] then None
    else if cats[0].id == id then Some(cats[0].name)
    else CategoryName(cats[1..], id)
  }

  function HasCategoryIn(cats: seq<Category>): Id -> bool {
    (id: Id) => CategoryName(cats, id).Some?
  }

  /** Each id paired with its category's name. */
  function Named(ids: seq<Id>, cats: seq<Category>): (r: seq<(Id, string)>)
    requires forall id :: id in ids ==> CategoryName(cats, id).Some?
    ensures |r| == |ids| && forall k :: 0 <= k < |ids| ==> r[k] == (ids[k], CategoryName(cats, ids[k]).value)
  {
    seq(|ids|, k requires 0 <= k < |ids| => (ids[k], CategoryName(cats, ids[k]).value))
  }

  /** The join with `Categories.IgnoreQueryFilters()`: each id paired with its
      category's name, ids without a category dropped, and the order of `ids`
      kept (see `JoinCategoriesAppend`). */
  function JoinCategories(ids: seq<Id>, cats: seq<Category>): (r: seq<(Id, string)>)
    ensures |r| <= |ids|
    ensures forall k :: 0 <= k < |r| ==> r[k].0 in ids && CategoryName(cats, r[k].0) == Some(r[k].1)
    ensures forall id :: id in ids && CategoryName(cats, id).Some? ==> (id, CategoryName(cats, id).value) in r
    ensures r == [] <==> forall id :: id in ids ==> CategoryName(cats, id).None?
  {
    var kept := Ordering.Where(ids, HasCategoryIn(cats));
    Ordering.WhereMembers(ids, HasCategoryIn(cats));
    Ordering.WhereCount(ids, HasCategoryIn(cats));
    var r := Named(kept, cats);
    assert forall id :: id in ids && CategoryName(cats, id).Some? ==> (id, CategoryName(cats, id).value) in r by {
      forall id | id in ids && CategoryName(cats, id).Some? ensures (id, CategoryName(cats, id).value) in r {
        assert HasCategoryIn(cats)(id);
        var k :| 0 <= k < |kept| && kept[k] == id;
        assert r[k] == (id, CategoryName(cats, id).value);
      }
    }
    r
  }

  /** The join keeps the order of the ids: joining a concatenation joins its
      parts one after the other. */
  lemma JoinCategoriesAppend(a: seq<Id>, b: seq<Id>, cats: seq<Category>)
    ensures JoinCategories(a + b, cats) == JoinCategories(a, cats) + JoinCategories(b, cats)
  {
    Ordering.WhereAppend(a, b, HasCategoryIn(cats));
    var wa, wb := Ordering.Where(a, HasCategoryIn(cats)), Ordering.Where(b, HasCategoryIn(cats));
    Ordering.WhereMembers(a, HasCategoryIn(cats));
    Ordering.WhereMembers(b, HasCategoryIn(cats));
    assert Named(wa + wb, cats) == Named(wa, cats) + Named(wb, cats);
  }

  /** `Select(s => s.CategoryId).Distinct()` over the quiz's visible entries,
      in order of first appearance. */
  function EntryCategoryIds(entries: seq<ScoreEntry>, quizId: Id): (ids: seq<Id>)
    ensures Quizzes.Distinct(ids)
    ensures forall id :: id in ids <==>
      exists e :: e in entries && !e.meta.isDeleted && e.quizId == quizId && e.categoryId == id
  {
    if entries == [] then []
    else
      var last := entries[|entries| - 1];
      var rest := EntryCategoryIds(entries[..|entries| - 1], quizId);
      assert entries == entries[..|entries| - 1] + [last];
      if !last.meta.isDeleted && last.quizId == quizId && last.categoryId !in rest then rest + [last.categoryId]
      else rest
  }

  /** A category linked to the quiz that has a name. */
  ghost predicate LinkedCategory(t: Tables, quizId: Id, id: Id) {
    CategoryName(t.categories, id).Some? &&
    exists qc :: qc in t.quizCategories && qc.quizId == quizId && qc.categoryId == id
  }

  /** A category a visible entry of the quiz uses, that has a name. */
  ghost predicate UsedCategory(t: Tables, quizId: Id, id: Id) {
    CategoryName(t.categories, id).Some? &&
    exists e :: e in t.scoreEntries && !e.meta.isDeleted && e.quizId == quizId && e.categoryId == id
  }

  /** Links of the quiz to the two categories put the first no later than the
      second. */
  ghost predicate LinkedInOrder(t: Tables, quizId: Id, first: Id, second: Id) {
    exists x, y :: x in t.quizCategories && y in t.quizCategories && x.quizId == quizId && y.quizId == quizId
      && x.categoryId == first && y.categoryId == second && x.orderIndex <= y.orderIndex
  }

  ghost predicate HasColumn(cols: seq<(Id, string)>, id: Id) {
    exists k :: 0 <= k < |cols| && cols[k].0 == id
  }

  function LinkedColumns(t: Tables, quizId: Id): seq<(Id, string)> {
    JoinCategories(LinkCategoryIds(ByOrderIndex(LinksOf(t.quizCategories, quizId))), t.categories)
  }

  function UsedColumns(t: Tables, quizId: Id): seq<(Id, string)> {
    JoinCategories(EntryCategoryIds(t.scoreEntries, quizId), t.categories)
  }

  /** The columns from the links are the named linked categories. */
  lemma LinkedColumnsMembers(t: Tables, quizId: Id)
    ensures forall id :: HasColumn(LinkedColumns(t, quizId), id) <==> LinkedCategory(t, quizId, id)
  {
    forall id ensures HasColumn(LinkedColumns(t, quizId), id) <==> LinkedCategory(t, quizId, id) {
      if HasColumn(LinkedColumns(t, quizId), id) {
        LinkedColumnSound(t, quizId, id);
      }
      if LinkedCategory(t, quizId, id) {
        LinkedColumnComplete(t, quizId, id);
      }
    }
  }

  lemma LinkedColumnSound(t: Tables, quizId: Id, id: Id)
    requires HasColumn(LinkedColumns(t, quizId), id)
    ensures LinkedCategory(t, quizId, id)
  {
    var links := LinksOf(t.quizCategories, quizId);
    var cols := LinkedColumns(t, quizId);
    var k :| 0 <= k < |cols| && cols[k].0 == id;
    LinkedIdSource(links, id);
  }

  /** An id taken from the sorted links is the category id of one of them. */
  lemma LinkedIdSource(links: seq<QuizCategory>, id: Id)
    requires id in LinkCategoryIds(ByOrderIndex(links))
    ensures exists qc :: qc in links && qc.categoryId == id
  {
    var sorted := ByOrderIndex(links);
    var ids := LinkCategoryIds(sorted);
    var a :| 0 <= a < |ids| && ids[a] == id;
    assert sorted[a] in multiset(links);
  }

  lemma LinkedColumnComplete(t: Tables, quizId: Id, id: Id)
    requires LinkedCategory(t, quizId, id)
    ensures HasColumn(LinkedColumns(t, quizId), id)
  {
    var sorted := ByOrderIndex(LinksOf(t.quizCategories, quizId));
    var ids := LinkCategoryIds(sorted);
    var cols := LinkedColumns(t, quizId);
    var qc :| qc in t.quizCategories && qc.quizId == quizId && qc.categoryId == id;
    assert qc in multiset(sorted);
    var a :| 0 <= a < |sorted| && sorted[a] == qc;
    assert ids[a] == id;
    assert (id, CategoryName(t.categories, id).value) in cols;
  }

  /** The columns from the links come in the order of the links' indexes. */
  lemma LinkedColumnsOrder(t: Tables, quizId: Id)
    ensures forall i, j :: 0 <= i < j < |LinkedColumns(t, quizId)| ==>
      LinkedInOrder(t, quizId, LinkedColumns(t, quizId)[i].0, LinkedColumns(t, quizId)[j].0)
  {
    var links := LinksOf(t.quizCategories, quizId);
    var sorted := ByOrderIndex(links);
    var ids := LinkCategoryIds(sorted);
    var has := HasCategoryIn(t.categories);
    var kept := Ordering.Where(ids, has);
    Ordering.WhereOrder(ids, has);
    var cols := LinkedColumns(t, quizId);
    assert cols == Named(kept, t.categories);
    forall i, j | 0 <= i < j < |cols| ensures LinkedInOrder(t, quizId, cols[i].0, cols[j].0) {
      assert Ordering.Precedes(ids, kept[i], kept[j]);
      var a, b :| 0 <= a < b < |ids| && ids[a] == kept[i] && ids[b] == kept[j];
      assert sorted[a] in multiset(sorted) && sorted[b] in multiset(sorted);
      assert sorted[a] in links && sorted[b] in links;
    }
  }

  /** The columns from the entries are the named categories the quiz's
      visible entries use. */
  lemma UsedColumnsFacts(t: Tables, quizId: Id)
    ensures forall id :: HasColumn(UsedColumns(t, quizId), id) <==> UsedCategory(t, quizId, id)
  {
    var ids := EntryCategoryIds(t.scoreEntries, quizId);
    var cols := UsedColumns(t, quizId);
    forall id ensures HasColumn(cols, id) <==> UsedCategory(t, quizId, id) {
      if HasColumn(cols, id) {
        var k :| 0 <= k < |cols| && cols[k].0 == id;
        assert id in ids;
      }
      if UsedCategory(t, quizId, id) {
        assert (id, CategoryName(t.categories, id).value) in cols;
      }
    }
  }

  /** The category columns: the quiz's named linked categories in the order
      of the links' indexes, or, when that yields none, the named categories
      its visible entries use. */
  function CategoryColumns(t: Tables, quizId: Id): (cols: seq<(Id, string)>)
    ensures forall k :: 0 <= k < |cols| ==> CategoryName(t.categories, cols[k].0) == Some(cols[k].1)
    ensures (exists id :: LinkedCategory(t, quizId, id)) ==>
      (forall id :: HasColumn(cols, id) <==> LinkedCategory(t, quizId, id))
      && forall i, j :: 0 <= i < j < |cols| ==> LinkedInOrder(t, quizId, cols[i].0, cols[j].0)
    ensures (forall id :: !LinkedCategory(t, quizId, id)) ==>
      forall id :: HasColumn(cols, id) <==> UsedCategory(t, quizId, id)
  {
    LinkedColumnsMembers(t, quizId);
    LinkedColumnsOrder(t, quizId);
    UsedColumnsFacts(t, quizId);
    var linked := LinkedColumns(t, quizId);
    if linked != [] then
      assert HasColumn(linked, linked[0].0);
      linked
    else
      assert forall id :: !HasColumn(linked, id);
      UsedColumns(t, quizId)
  }

  function ColumnIds(cols: seq<(Id, string)>): (ids: seq<Id>)
    ensures |ids| == |cols| && forall k :: 0 <= k < |cols| ==> ids[k] == cols[k].0
  {
    if cols == [] then [] else ColumnIds(cols[..|cols| - 1]) + [cols[|cols| - 1].0]
  }

  function ColumnNames(cols: seq<(Id, string)>): (names: seq<string>)
    ensures |names| == |cols| && forall k :: 0 <= k < |cols| ==> names[k] == cols[k].1
  {
    if cols == [] then [] else ColumnNames(cols[..|cols| - 1]) + [cols[|cols| - 1].1]
  }

  // The team rows.

  /** The visible quiz-team links of the quiz, in table order (see
      `TeamLinksAppend`); there are as many as the summary counts. */
  function TeamLinks(quizTeams: seq<QuizTeam>, quizId: Id): (r: seq<QuizTeam>)
    ensures forall x :: x in r <==> x in quizTeams && !x.meta.isDeleted && x.quizId == quizId
    ensures |r| == Statistics.TeamCount(quizTeams, quizId)
  {
    Ordering.WhereMembers(quizTeams, Statistics.LinksTeamOf(quizId));
    Ordering.WhereCount(quizTeams, Statistics.LinksTeamOf(quizId));
    Ordering.Where(quizTeams, Statistics.LinksTeamOf(quizId))
  }

  /** The links keep the table order and every repetition: the links of a
      concatenation are the links of its parts, one after the other. */
  lemma TeamLinksAppend(a: seq<QuizTeam>, b: seq<QuizTeam>, quizId: Id)
    ensures TeamLinks(a + b, quizId) == TeamLinks(a, quizId) + TeamLinks(b, quizId)
  {
    Ordering.WhereAppend(a, b, Statistics.LinksTeamOf(quizId));
  }

  /** `ToDictionaryAsync(qt => qt.TeamId, …)` accepts the links only when no
      team is linked twice. */
  predicate UniqueLinkTeams(links: seq<QuizTeam>) {
    forall i, j :: 0 <= i < j < |links| ==> links[i].teamId != links[j].teamId
  }

  /** The team of the first link whose team an earlier link already has: the
      key on which `ToDictionaryAsync` throws, adding the links in order. */
  function FirstRepeatedTeam(links: seq<QuizTeam>): (r: Option<Id>)
    ensures r.None? <==> UniqueLinkTeams(links)
    ensures r.Some? ==> exists j :: (0 <= j < |links| && links[j].teamId == r.value && UniqueLinkTeams(links[..j])
      && exists i :: 0 <= i < j && links[i].teamId == r.value)
  {
    if links == [] then None
    else
      var init, last := links[..|links| - 1], links[|links| - 1];
      var r := FirstRepeatedTeam(init);
      assert forall j :: 0 <= j <= |init| ==> links[..j] == init[..j];
      if r.Some? then r
      else if exists i :: 0 <= i < |init| && init[i].teamId == last.teamId then
        assert links[..|init|] == init;
        Some(last.teamId)
      else None
  }

  /** The text of the `ArgumentException` a repeated dictionary key raises. */
  const DuplicateKeyMessage: string := "An item with the same key has already been added."

  /** The exception for the repeated key, whose message ends with the key. */
  function DuplicateKeyError(key: Id): (e: Error)
    ensures e.InvalidArgument? && Text.StartsWith(e.message, DuplicateKeyMessage)
  {
    InvalidArgument(DuplicateKeyMessage + " Key: " + Text.IntToString(key))
  }

  function LinkOf(links: seq<QuizTeam>, teamId: Id): Option<QuizTeam> {
    if links == [] then None
    else if links[0].teamId == teamId then Some(links[0])
    else LinkOf(links[1..], teamId)
  }

  /** The team row with the id, deleted or not. */
  function FindTeam(teams: seq<Team>, teamId: Id): Option<Team> {
    if teams == [] then None
    else if teams[0].id == teamId then Some(teams[0])
    else FindTeam(teams[1..], teamId)
  }

  /** The team's alias in the quiz, else the name of a linked team, else its
      id in text (`ExportImportService.cs:78`). The team dictionary holds only
      linked teams. */
  function DisplayName(teams: seq<Team>, links: seq<QuizTeam>, teamId: Id): string {
    match LinkOf(links, teamId)
    case Some(link) =>
      if link.aliasInQuiz.Some? then link.aliasInQuiz.value
      else if FindTeam(teams, teamId).Some? then FindTeam(teams, teamId).value.name
      else Text.IntToString(teamId)
    case None => Text.IntToString(teamId)
  }

  /** A visible entry of the quiz, team and category, of any organization. */
  predicate EntryFor(e: ScoreEntry, quizId: Id, teamId: Id, categoryId: Id) {
    !e.meta.isDeleted && e.quizId == quizId && e.teamId == teamId && e.categoryId == categoryId
  }

  /** Points plus bonus of the first visible entry of the quiz, team and
      category (no organization filter), or 0 when there is none. */
  function EntryPoints(entries: seq<ScoreEntry>, quizId: Id, teamId: Id, categoryId: Id): (p: int)
    ensures p != 0 ==> exists e :: e in entries && EntryFor(e, quizId, teamId, categoryId) && p == RowPoints(e)
    ensures (forall e :: e in entries ==> !EntryFor(e, quizId, teamId, categoryId)) ==> p == 0
  {
    if entries == [] then 0
    else if EntryFor(entries[0], quizId, teamId, categoryId) then RowPoints(entries[0])
    else
      assert forall x :: x in entries[1..] ==> x in entries;
      EntryPoints(entries[1..], quizId, teamId, categoryId)
  }

  /** The cell holds the points of the first matching entry. */
  lemma {:induction false} EntryPointsFirst(entries: seq<ScoreEntry>, quizId: Id, teamId: Id, categoryId: Id, i: nat)
    requires i < |entries| && EntryFor(entries[i], quizId, teamId, categoryId)
    requires forall k :: 0 <= k < i ==> !EntryFor(entries[k], quizId, teamId, categoryId)
    ensures EntryPoints(entries, quizId, teamId, categoryId) == RowPoints(entries[i])
  {
    if i > 0 {
      assert !EntryFor(entries[0], quizId, teamId, categoryId);
      assert forall k :: 0 <= k < i - 1 ==> entries[1..][k] == entries[k + 1];
      EntryPointsFirst(entries[1..], quizId, teamId, categoryId, i - 1);
    }
  }

  function PointCells(entries: seq<ScoreEntry>, quizId: Id, teamId: Id, catIds: seq<Id>): (r: seq<Cell>)
    ensures |r| == |catIds|
    ensures forall j :: 0 <= j < |catIds| ==> r[j] == Num(EntryPoints(entries, quizId, teamId, catIds[j]))
  {
    if catIds == [] then []
    else
      var init := catIds[..|catIds| - 1];
      assert forall j :: 0 <= j < |init| ==> init[j] == catIds[j];
      var last := Num(EntryPoints(entries, quizId, teamId, catIds[|catIds| - 1]));
      PointCells(entries, quizId, teamId, init) + [last]
  }

  lemma PointCellsSnoc(entries: seq<ScoreEntry>, quizId: Id, teamId: Id, catIds: seq<Id>, j: nat)
    requires j < |catIds|
    ensures PointCells(entries, quizId, teamId, catIds[..j + 1])
         == PointCells(entries, quizId, teamId, catIds[..j]) + [Num(EntryPoints(entries, quizId, teamId, catIds[j]))]
  {
    assert catIds[..j + 1][..j] == catIds[..j];
  }

  /** The row of one team: its display name, one cell per category, its
      ranking value and its rank. */
  function TeamRow(
    t: Tables, quizId: Id, links: seq<QuizTeam>, ranks: seq<Standing>, catIds: seq<Id>, teamId: Id, rank: int): seq<Cell>
  {
    [Str(DisplayName(t.teams, links, teamId))] + PointCells(t.scoreEntries, quizId, teamId, catIds)
      + [Num(ValueOrZero(ranks, teamId)), Num(rank)]
  }

  /** The rows of the teams in `order`, ranked 1, 2, … */
  function TeamRows(
    t: Tables, quizId: Id, links: seq<QuizTeam>, ranks: seq<Standing>, catIds: seq<Id>, order: seq<Id>): (rows: seq<seq<Cell>>)
    ensures |rows| == |order|
  {
    if order == [] then []
    else
      var last := TeamRow(t, quizId, links, ranks, catIds, order[|order| - 1], |order|);
      TeamRows(t, quizId, links, ranks, catIds, order[..|order| - 1]) + [last]
  }

  lemma {:induction false} TeamRowsAt(
    t: Tables, quizId: Id, links: seq<QuizTeam>, ranks: seq<Standing>, catIds: seq<Id>, order: seq<Id>, i: nat)
    requires i < |order|
    ensures TeamRows(t, quizId, links, ranks, catIds, order)[i] == TeamRow(t, quizId, links, ranks, catIds, order[i], i + 1)
  {
    var n := |order| - 1;
    var rest := TeamRows(t, quizId, links, ranks, catIds, order[..n]);
    assert TeamRows(t, quizId, links, ranks, catIds, order) == rest + [TeamRow(t, quizId, links, ranks, catIds, order[n], n + 1)];
    if i < n {
      TeamRowsAt(t, quizId, links, ranks, catIds, order[..n], i);
      assert order[..n][i] == order[i];
    }
  }

  lemma TeamRowsSnoc(
    t: Tables, quizId: Id, links: seq<QuizTeam>, ranks: seq<Standing>, catIds: seq<Id>, order: seq<Id>, i: nat)
    requires i < |order|
    ensures TeamRows(t, quizId, links, ranks, catIds, order[..i + 1])
         == TeamRows(t, quizId, links, ranks, catIds, order[..i]) + [TeamRow(t, quizId, links, ranks, catIds, order[i], i + 1)]
  {
    assert order[..i + 1][..i] == order[..i];
  }

  /** `OrderByDescending(x => x.Value).Select(x => x.Key)` over the ranking. */
  function TeamOrder(ranks: seq<Standing>): (order: seq<Id>)
    ensures |order| == |ranks|
    ensures forall i :: 0 <= i < |order| ==> order[i] == Descending(ranks)[i].teamId
  {
    var o := Descending(ranks);
    assert |o| == |multiset(o)| == |multiset(ranks)| == |ranks|;
    seq(|o|, i requires 0 <= i < |o| => o[i].teamId)
  }

  function QuizHeader(names: seq<string>): seq<Cell> {
    [Str("Team")] + Strs(names) + [Str("Total"), Str("Rank")]
  }

  /** Rows 1 and 2: the template version, the quiz name, and its date. */
  function QuizTitle(quiz: Quiz, formatDate: Time -> string): Cells {
    map[(1, 1) := Str("1.0"), (1, 2) := Str(quiz.name), (2, 1) := Str("Date"), (2, 2) := Str(formatDate(quiz.date))]
  }

  /** The quiz sheet `ExportQuizToExcelAsync` writes, or the exception it
      raises. `formatDate` renders a date as "yyyy-MM-dd". */
  function QuizSheet(t: Tables, orgId: Id, quizId: Id, formatDate: Time -> string): Result<Sheet, Error> {
    var found := FindQuiz(t.quizzes, quizId);
    if found.None? || found.value.meta.orgId != orgId then Err(InvalidOperation("Quiz not found."))
    else
      var cols := CategoryColumns(t, quizId);
      var links := TeamLinks(t.quizTeams, quizId);
      if !UniqueLinkTeams(links) then Err(DuplicateKeyError(FirstRepeatedTeam(links).value))
      else if !ValidSheetName(SheetName(found.value.name)) then Err(InvalidArgument(InvalidSheetNameMessage))
      else
        Ok(QuizSheetOf(t, quizId, found.value, cols, links, Statistics.RankingOf(t, orgId, quizId), formatDate))
  }

  /** The quiz export succeeds exactly when the quiz is found in the
      organization, no team is linked to it twice, and its cut name is a
      valid worksheet name. */
  lemma QuizSheetOutcome(t: Tables, orgId: Id, quizId: Id, formatDate: Time -> string)
    ensures var found := FindQuiz(t.quizzes, quizId);
      QuizSheet(t, orgId, quizId, formatDate).Ok? <==>
        (found.Some? && found.value.meta.orgId == orgId && UniqueLinkTeams(TeamLinks(t.quizTeams, quizId))
         && ValidSheetName(SheetName(found.value.name)))
  {
  }

  /** A quiz that is missing or in another organization is "not found"; a
      team linked twice raises the dictionary's exception on that team's id. */
  lemma QuizSheetErrors(t: Tables, orgId: Id, quizId: Id, formatDate: Time -> string)
    ensures var found := FindQuiz(t.quizzes, quizId);
      found.None? || found.value.meta.orgId != orgId ==>
        QuizSheet(t, orgId, quizId, formatDate) == Err(InvalidOperation("Quiz not found."))
    ensures var found := FindQuiz(t.quizzes, quizId);
      var links := TeamLinks(t.quizTeams, quizId);
      found.Some? && found.value.meta.orgId == orgId && !UniqueLinkTeams(links) ==>
        exists key :: QuizSheet(t, orgId, quizId, formatDate) == Err(DuplicateKeyError(key))
          && Ordering.Precedes(LinkTeamIds(links), key, key)
  {
    var found := FindQuiz(t.quizzes, quizId);
    var links := TeamLinks(t.quizTeams, quizId);
    if found.Some? && found.value.meta.orgId == orgId && !UniqueLinkTeams(links) {
      var key := FirstRepeatedTeam(links).value;
      assert QuizSheet(t, orgId, quizId, formatDate) == Err(DuplicateKeyError(key));
      var j :| 0 <= j < |links| && links[j].teamId == key && UniqueLinkTeams(links[..j])
        && exists i :: 0 <= i < j && links[i].teamId == key;
      var i :| 0 <= i < j && links[i].teamId == key;
      assert LinkTeamIds(links)[i] == key && LinkTeamIds(links)[j] == key;
    }
  }

  function LinkTeamIds(links: seq<QuizTeam>): (ids: seq<Id>)
    ensures |ids| == |links| && forall k :: 0 <= k < |links| ==> ids[k] == links[k].teamId
  {
    seq(|links|, k requires 0 <= k < |links| => links[k].teamId)
  }

  /** The sheet of a found quiz, given its category columns, its team links
      and its ranking. */
  function QuizSheetOf(
    t: Tables, quizId: Id, quiz: Quiz, cols: seq<(Id, string)>, links: seq<QuizTeam>, ranks: seq<Standing>,
    formatDate: Time -> string): Sheet
  {
    var header := Written(QuizTitle(quiz, formatDate), 4, 1, QuizHeader(ColumnNames(cols)));
    Sheet(SheetName(quiz.name), Rows(header, 5, TeamRows(t, quizId, links, ranks, ColumnIds(cols), TeamOrder(ranks))))
  }

  /** `ExportQuizToExcelAsync`, writing the cells with the service's loops. */
  method ExportQuiz(t: Tables, orgId: Id, quizId: Id, formatDate: Time -> string) returns (r: Result<Sheet, Error>)
    ensures r == QuizSheet(t, orgId, quizId, formatDate)
  {
    var found := FindQuiz(t.quizzes, quizId);
    if found.None? || found.value.meta.orgId != orgId {
      return Err(InvalidOperation("Quiz not found."));
    }
    var quiz := found.value;
    var cols := CategoryColumns(t, quizId);
    var catIds, names := ColumnIds(cols), ColumnNames(cols);
    var links := TeamLinks(t.quizTeams, quizId);
    if !UniqueLinkTeams(links) {
      return Err(DuplicateKeyError(FirstRepeatedTeam(links).value));
    }
    var ranks := Statistics.RankingOf(t, orgId, quizId);
    var order := TeamOrder(ranks);
    if !ValidSheetName(SheetName(quiz.name)) {
      return Err(InvalidArgument(InvalidSheetNameMessage));
    }
    var header := WriteHeader(QuizTitle(quiz, formatDate), names);
    var cells := WriteTeamRows(header, t, quizId, links, ranks, catIds, order);
    r := Ok(Sheet(SheetName(quiz.name), cells));
  }

  /** The row loop: one row per team of `order`, from row 5 down. */
  method WriteTeamRows(
    header: Cells, t: Tables, quizId: Id, links: seq<QuizTeam>, ranks: seq<Standing>, catIds: seq<Id>, order: seq<Id>)
    returns (cells: Cells)
    ensures cells == Rows(header, 5, TeamRows(t, quizId, links, ranks, catIds, order))
  {
    cells := header;
    var row := 5;
    var i := 0;
    ghost var done: seq<seq<Cell>> := [];
    while i < |order|
      invariant 0 <= i <= |order| && row == 5 + i
      invariant done == TeamRows(t, quizId, links, ranks, catIds, order[..i])
      invariant cells == Rows(header, 5, done)
    {
      var teamId := order[i];
      ghost var next := TeamRow(t, quizId, links, ranks, catIds, teamId, i + 1);
      ghost var before := cells;
      cells := WriteTeamRow(cells, row, t.scoreEntries, quizId, teamId, catIds,
        DisplayName(t.teams, links, teamId), ValueOrZero(ranks, teamId));
      assert cells == Written(before, row, 1, next);
      assert cells == Rows(header, 5, done + [next]) by {
        RowsSnoc(header, 5, done, next);
      }
      TeamRowsSnoc(t, quizId, links, ranks, catIds, order, i);
      done := done + [next];
      row := row + 1;
      i := i + 1;
    }
    assert order[..i] == order;
  }

  /** The header loop: "Team", the category names, "Total" and "Rank" from
      column 1 of row 4. */
  method WriteHeader(title: Cells, names: seq<string>) returns (cells: Cells)
    ensures cells == Written(title, 4, 1, QuizHeader(names))
  {
    cells := title;
    var col := 1;
    cells := cells[(4, col) := Str("Team")];
    WrittenSnoc(title, 4, 1, [], Str("Team"));
    col := col + 1;
    var k := 0;
    while k < |names|
      invariant 0 <= k <= |names| && col == 2 + k
      invariant cells == Written(title, 4, 1, [Str("Team")] + Strs(names[..k]))
    {
      ghost var before := cells;
      cells := cells[(4, col) := Str(names[k])];
      HeaderNameWritten(title, names, k, before);
      col := col + 1;
      k := k + 1;
    }
    ghost var before := cells;
    cells := cells[(4, col) := Str("Total")];
    cells := cells[(4, col + 1) := Str("Rank")];
    HeaderEndWritten(title, names, before);
  }

  /** Writing category name `k` into column `2 + k` extends the header. */
  lemma HeaderNameWritten(title: Cells, names: seq<string>, k: nat, before: Cells)
    requires k < |names|
    requires before == Written(title, 4, 1, [Str("Team")] + Strs(names[..k]))
    ensures before[(4, 2 + k) := Str(names[k])] == Written(title, 4, 1, [Str("Team")] + Strs(names[..k + 1]))
  {
    StrsSnoc(names, k);
    WrittenSnoc(title, 4, 1, [Str("Team")] + Strs(names[..k]), Str(names[k]));
    assert [Str("Team")] + Strs(names[..k + 1]) == [Str("Team")] + Strs(names[..k]) + [Str(names[k])];
  }

  /** Writing "Total" and "Rank" after the category names completes the header. */
  lemma HeaderEndWritten(title: Cells, names: seq<string>, before: Cells)
    requires before == Written(title, 4, 1, [Str("Team")] + Strs(names[..|names|]))
    ensures before[(4, 2 + |names|) := Str("Total")][(4, 3 + |names|) := Str("Rank")]
      == Written(title, 4, 1, QuizHeader(names))
  {
    var head := [Str("Team")] + Strs(names);
    assert names[..|names|] == names;
    WrittenSnoc(title, 4, 1, head, Str("Total"));
    WrittenSnoc(title, 4, 1, head + [Str("Total")], Str("Rank"));
    assert head + [Str("Total")] + [Str("Rank")] == QuizHeader(names);
  }

  lemma StrsSnoc(names: seq<string>, k: nat)
    requires k < |names|
    ensures Strs(names[..k + 1]) == Strs(names[..k]) + [Str(names[k])]
  {
    assert names[..k + 1][..k] == names[..k];
  }

  /** The body of the row loop for the team in row `row`: its display name,
      the points of each category, its total and its rank `row - 4`. */
  method WriteTeamRow(
    cells0: Cells, row: int, entries: seq<ScoreEntry>, quizId: Id, teamId: Id, catIds: seq<Id>,
    displayName: string, total: int)
    returns (cells: Cells)
    ensures cells == Written(cells0, row, 1,
      [Str(displayName)] + PointCells(entries, quizId, teamId, catIds) + [Num(total), Num(row - 4)])
  {
    var col := 1;
    cells := cells0[(row, col) := Str(displayName)];
    ghost var named := cells;
    cells := WritePoints(cells, row, entries, quizId, teamId, catIds);
    col := 2 + |catIds|;
    cells := cells[(row, col) := Num(total)];
    cells := cells[(row, col + 1) := Num(row - 4)];
    ghost var points := PointCells(entries, quizId, teamId, catIds);
    assert cells == Written(named, row, 2, points + [Num(total), Num(row - 4)]) by {
      WrittenSnoc(named, row, 2, points, Num(total));
      WrittenSnoc(named, row, 2, points + [Num(total)], Num(row - 4));
      assert points + [Num(total)] + [Num(row - 4)] == points + [Num(total), Num(row - 4)];
    }
    assert named == Written(cells0, row, 1, [Str(displayName)]);
    WrittenAppend(cells0, row, 1, [Str(displayName)], points + [Num(total), Num(row - 4)]);
    assert [Str(displayName)] + (points + [Num(total), Num(row - 4)])
        == [Str(displayName)] + points + [Num(total), Num(row - 4)];
  }

  /** The inner loop: the points of each category from column 2 on. */
  method WritePoints(cells0: Cells, row: int, entries: seq<ScoreEntry>, quizId: Id, teamId: Id, catIds: seq<Id>)
    returns (cells: Cells)
    ensures cells == Written(cells0, row, 2, PointCells(entries, quizId, teamId, catIds))
  {
    cells := cells0;
    var col := 2;
    var j := 0;
    while j < |catIds|
      invariant 0 <= j <= |catIds| && col == 2 + j
      invariant cells == Written(cells0, row, 2, PointCells(entries, quizId, teamId, catIds[..j]))
    {
      var pts := EntryPoints(entries, quizId, teamId, catIds[j]);
      WrittenSnoc(cells0, row, 2, PointCells(entries, quizId, teamId, catIds[..j]), Num(pts));
      PointCellsSnoc(entries, quizId, teamId, catIds, j);
      cells := cells[(row, col) := Num(pts)];
      col := col + 1;
      j := j + 1;
    }
    assert catIds[..j] == catIds;
  }

  // What the quiz sheet shows.

  /** The ranking's teams in descending order: each team of the ranking once,
      with non-increasing totals, and the total shown for a team is its
      ranking value. */
  lemma TeamOrderFacts(ranks: seq<Standing>)
    requires DistinctTeams(ranks)
    ensures var order := TeamOrder(ranks);
      && (forall i :: 0 <= i < |order| ==> ValueOrZero(ranks, order[i]) == Descending(ranks)[i].points)
      && (forall i, j :: 0 <= i < j < |order| ==> ValueOrZero(ranks, order[i]) >= ValueOrZero(ranks, order[j]))
      && (forall teamId :: teamId in order <==> HasKey(ranks, teamId))
  {
    TeamOrderValues(ranks);
    TeamOrderMembers(ranks);
  }

  lemma TeamOrderValues(ranks: seq<Standing>)
    requires DistinctTeams(ranks)
    ensures var order := TeamOrder(ranks);
      forall i :: 0 <= i < |order| ==> ValueOrZero(ranks, order[i]) == Descending(ranks)[i].points
  {
    var order := TeamOrder(ranks);
    var o := Descending(ranks);
    forall i | 0 <= i < |order| ensures ValueOrZero(ranks, order[i]) == o[i].points {
      assert o[i] in multiset(ranks);
      LookupIffIn(ranks, o[i].teamId, o[i].points);
    }
  }

  lemma TeamOrderMembers(ranks: seq<Standing>)
    ensures forall teamId :: teamId in TeamOrder(ranks) <==> HasKey(ranks, teamId)
  {
    var order := TeamOrder(ranks);
    var o := Descending(ranks);
    forall teamId ensures teamId in order <==> HasKey(ranks, teamId) {
      if teamId in order {
        var i :| 0 <= i < |order| && order[i] == teamId;
        assert o[i] in multiset(ranks);
        var k :| 0 <= k < |ranks| && ranks[k] == o[i];
      }
      if HasKey(ranks, teamId) {
        var k :| 0 <= k < |ranks| && ranks[k].teamId == teamId;
        assert ranks[k] in multiset(o);
        var i :| 0 <= i < |o| && o[i] == ranks[k];
        assert order[i] == teamId;
      }
    }
  }

  /** The quiz sheet's name, its title cells, and its header row 4: "Team",
      the category names in column order, "Total" and "Rank", and nothing
      after them. */
  predicate QuizHeaderLaidOut(sheet: Sheet, quiz: Quiz, cols: seq<(Id, string)>) {
    && sheet.name == SheetName(quiz.name)
    && At(sheet.cells, 1, 1) == Some(Str("1.0"))
    && At(sheet.cells, 1, 2) == Some(Str(quiz.name))
    && At(sheet.cells, 4, 1) == Some(Str("Team"))
    && (forall j :: 0 <= j < |cols| ==> At(sheet.cells, 4, j + 2) == Some(Str(cols[j].1)))
    && At(sheet.cells, 4, |cols| + 2) == Some(Str("Total"))
    && At(sheet.cells, 4, |cols| + 3) == Some(Str("Rank"))
    && At(sheet.cells, 4, |cols| + 4) == None
  }

  /** The quiz sheet's team rows: from row 5, one row per team of the
      descending order, holding its display name, its points in each
      category, its ranking value and its rank `row - 4`; nothing below the
      last team. */
  predicate QuizRowsLaidOut(
    cells: Cells, t: Tables, quizId: Id, cols: seq<(Id, string)>, links: seq<QuizTeam>, ranks: seq<Standing>)
  {
    var order := TeamOrder(ranks);
    && (forall i :: 0 <= i < |order| ==> TeamRowLaidOut(cells, t, quizId, cols, links, ranks, i, order[i]))
    && At(cells, 5 + |order|, 1) == None
  }

  /** Row `5 + i` holds the team's display name, its points in each category
      column, its ranking value and the rank `i + 1`. */
  predicate TeamRowLaidOut(
    cells: Cells, t: Tables, quizId: Id, cols: seq<(Id, string)>, links: seq<QuizTeam>, ranks: seq<Standing>,
    i: nat, teamId: Id)
  {
    && At(cells, 5 + i, 1) == Some(Str(DisplayName(t.teams, links, teamId)))
    && (forall j :: 0 <= j < |cols| ==>
          At(cells, 5 + i, j + 2) == Some(Num(EntryPoints(t.scoreEntries, quizId, teamId, cols[j].0))))
    && At(cells, 5 + i, |cols| + 2) == Some(Num(ValueOrZero(ranks, teamId)))
    && At(cells, 5 + i, |cols| + 3) == Some(Num(i + 1))
  }

  /** The layout of an exported quiz: the header of its category columns and
      one row per ranked team, best first. */
  lemma QuizSheetLayout(t: Tables, orgId: Id, quizId: Id, formatDate: Time -> string)
    requires QuizSheet(t, orgId, quizId, formatDate).Ok?
    ensures var sheet := QuizSheet(t, orgId, quizId, formatDate).value;
      var cols := CategoryColumns(t, quizId);
      && QuizHeaderLaidOut(sheet, FindQuiz(t.quizzes, quizId).value, cols)
      && QuizRowsLaidOut(sheet.cells, t, quizId, cols, TeamLinks(t.quizTeams, quizId), Statistics.RankingOf(t, orgId, quizId))
  {
    var quiz := FindQuiz(t.quizzes, quizId).value;
    var cols := CategoryColumns(t, quizId);
    var links := TeamLinks(t.quizTeams, quizId);
    var ranks := Statistics.RankingOf(t, orgId, quizId);
    assert QuizSheet(t, orgId, quizId, formatDate) == Ok(QuizSheetOf(t, quizId, quiz, cols, links, ranks, formatDate));
    SheetOfHeader(t, quizId, quiz, cols, links, ranks, formatDate);
    SheetOfRows(t, quizId, quiz, cols, links, ranks, formatDate);
  }

  lemma SheetOfHeader(
    t: Tables, quizId: Id, quiz: Quiz, cols: seq<(Id, string)>, links: seq<QuizTeam>, ranks: seq<Standing>,
    formatDate: Time -> string)
    ensures QuizHeaderLaidOut(QuizSheetOf(t, quizId, quiz, cols, links, ranks, formatDate), quiz, cols)
  {
    var title := QuizTitle(quiz, formatDate);
    var header := Written(title, 4, 1, QuizHeader(ColumnNames(cols)));
    var rows := TeamRows(t, quizId, links, ranks, ColumnIds(cols), TeamOrder(ranks));
    HeaderCells(title, ColumnNames(cols), cols, header, rows, Rows(header, 5, rows));
  }

  lemma SheetOfRows(
    t: Tables, quizId: Id, quiz: Quiz, cols: seq<(Id, string)>, links: seq<QuizTeam>, ranks: seq<Standing>,
    formatDate: Time -> string)
    ensures QuizRowsLaidOut(QuizSheetOf(t, quizId, quiz, cols, links, ranks, formatDate).cells, t, quizId, cols, links, ranks)
  {
    var order := TeamOrder(ranks);
    var title := QuizTitle(quiz, formatDate);
    var header := Written(title, 4, 1, QuizHeader(ColumnNames(cols)));
    var rows := TeamRows(t, quizId, links, ranks, ColumnIds(cols), order);
    var cells := Rows(header, 5, rows);
    forall i | 0 <= i < |order| ensures TeamRowLaidOut(cells, t, quizId, cols, links, ranks, i, order[i]) {
      TeamRowCells(header, t, quizId, cols, links, ranks, i);
    }
    AtRows(header, 5, rows, 5 + |order|, 1);
    AtWritten(title, 4, 1, QuizHeader(ColumnNames(cols)), 5 + |order|, 1);
  }

  /** The cells of the `i`-th team row. */
  lemma TeamRowCells(
    header: Cells, t: Tables, quizId: Id, cols: seq<(Id, string)>, links: seq<QuizTeam>, ranks: seq<Standing>, i: nat)
    requires i < |TeamOrder(ranks)|
    ensures var cells := Rows(header, 5, TeamRows(t, quizId, links, ranks, ColumnIds(cols), TeamOrder(ranks)));
      TeamRowLaidOut(cells, t, quizId, cols, links, ranks, i, TeamOrder(ranks)[i])
  {
    var catIds := ColumnIds(cols);
    var order := TeamOrder(ranks);
    var rows := TeamRows(t, quizId, links, ranks, catIds, order);
    var points := PointCells(t.scoreEntries, quizId, order[i], catIds);
    var cells := Rows(header, 5, rows);
    var name, total := Str(DisplayName(t.teams, links, order[i])), Num(ValueOrZero(ranks, order[i]));
    assert rows[i] == [name] + points + [total, Num(i + 1)] by {
      TeamRowsAt(t, quizId, links, ranks, catIds, order, i);
    }
    RowCells(header, rows, i, name, points, total, Num(i + 1));
    forall j | 0 <= j < |cols|
      ensures At(cells, 5 + i, j + 2) == Some(Num(EntryPoints(t.scoreEntries, quizId, order[i], cols[j].0)))
    {
      assert catIds[j] == cols[j].0;
    }
  }

  /** The cells of a row made of a name, point cells, a total and a rank. */
  lemma RowCells(header: Cells, rows: seq<seq<Cell>>, i: nat, name: Cell, points: seq<Cell>, total: Cell, rank: Cell)
    requires i < |rows| && rows[i] == [name] + points + [total, rank]
    ensures At(Rows(header, 5, rows), 5 + i, 1) == Some(name)
    ensures At(Rows(header, 5, rows), 5 + i, |points| + 2) == Some(total)
    ensures At(Rows(header, 5, rows), 5 + i, |points| + 3) == Some(rank)
    ensures forall j :: 0 <= j < |points| ==> At(Rows(header, 5, rows), 5 + i, j + 2) == Some(points[j])
  {
    AtRows(header, 5, rows, 5 + i, 1);
    AtRows(header, 5, rows, 5 + i, |points| + 2);
    AtRows(header, 5, rows, 5 + i, |points| + 3);
    forall j | 0 <= j < |points| ensures At(Rows(header, 5, rows), 5 + i, j + 2) == Some(points[j]) {
      AtRows(header, 5, rows, 5 + i, j + 2);
      assert rows[i][j + 1] == points[j];
    }
  }

  /** The title and header cells of the quiz sheet, which the team rows leave
      untouched. */
  lemma HeaderCells(
    title: Cells, names: seq<string>, cols: seq<(Id, string)>, header: Cells, rows: seq<seq<Cell>>, cells: Cells)
    requires names == ColumnNames(cols)
    requires title.Keys == {(1, 1), (1, 2), (2, 1), (2, 2)}
    requires header == Written(title, 4, 1, QuizHeader(names))
    requires cells == Rows(header, 5, rows)
    ensures At(cells, 1, 1) == At(title, 1, 1) && At(cells, 1, 2) == At(title, 1, 2)
    ensures At(cells, 4, 1) == Some(Str("Team"))
    ensures forall j :: 0 <= j < |cols| ==> At(cells, 4, j + 2) == Some(Str(cols[j].1))
    ensures At(cells, 4, |cols| + 2) == Some(Str("Total"))
    ensures At(cells, 4, |cols| + 3) == Some(Str("Rank"))
    ensures At(cells, 4, |cols| + 4) == None
  {
    var h := QuizHeader(names);
    assert |h| == |cols| + 3;
    forall j | 0 <= j < |cols| ensures At(cells, 4, j + 2) == Some(Str(cols[j].1)) {
      HeaderRowAt(title, h, header, rows, cells, j + 2);
      assert h[j + 1] == Str(names[j]);
    }
    HeaderRowAt(title, h, header, rows, cells, 1);
    HeaderRowAt(title, h, header, rows, cells, |cols| + 2);
    HeaderRowAt(title, h, header, rows, cells, |cols| + 3);
    HeaderRowAt(title, h, header, rows, cells, |cols| + 4);
    AtRows(header, 5, rows, 1, 1);
    AtWritten(title, 4, 1, h, 1, 1);
    AtRows(header, 5, rows, 1, 2);
    AtWritten(title, 4, 1, h, 1, 2);
  }

  /** Row 4 holds the header cells and nothing after them. */
  lemma HeaderRowAt(title: Cells, h: seq<Cell>, header: Cells, rows: seq<seq<Cell>>, cells: Cells, c: int)
    requires title.Keys == {(1, 1), (1, 2), (2, 1), (2, 2)}
    requires header == Written(title, 4, 1, h)
    requires cells == Rows(header, 5, rows)
    requires 1 <= c
    ensures At(cells, 4, c) == if c <= |h| then Some(h[c - 1]) else None
  {
    AtRows(header, 5, rows, 4, c);
    AtWritten(title, 4, 1, h, 4, c);
  }

  // The league sheet.

  /** The team's name, deleted or not, else its id in text
      (`ExportImportService.cs:161`). */
  function TeamNameOrId(teams: seq<Team>, teamId: Id): string {
    match FindTeam(teams, teamId)
    case Some(team) => team.name
    case None => Text.IntToString(teamId)
  }

  function LeagueRow(teams: seq<Team>, s: Standing, rank: int): seq<Cell> {
    [Num(rank), Str(TeamNameOrId(teams, s.teamId)), Num(s.points)]
  }

  /** The standings rows, ranked 1, 2, … */
  function LeagueRows(teams: seq<Team>, ordered: seq<Standing>): (rows: seq<seq<Cell>>)
    ensures |rows| == |ordered|
  {
    if ordered == [] then []
    else
      var last := LeagueRow(teams, ordered[|ordered| - 1], |ordered|);
      LeagueRows(teams, ordered[..|ordered| - 1]) + [last]
  }

  lemma {:induction false} LeagueRowsAt(teams: seq<Team>, ordered: seq<Standing>, i: nat)
    requires i < |ordered|
    ensures LeagueRows(teams, ordered)[i] == LeagueRow(teams, ordered[i], i + 1)
  {
    if i < |ordered| - 1 {
      LeagueRowsAt(teams, ordered[..|ordered| - 1], i);
    }
  }

  const LeagueColumns: seq<Cell> := [Str("Rank"), Str("Team"), Str("Total points")]

  function LeagueTitle(name: string): Cells {
    map[(1, 1) := Str(name), (2, 1) := Str("League standings")]
  }

  /** The league sheet `ExportLeagueToExcelAsync` writes, or the exception it
      raises: every team with a league total, best first, with no cut-off. */
  function LeagueSheet(t: Tables, orgId: Id, leagueId: Id): Result<Sheet, Error> {
    var found := Statistics.FindLeague(t.leagues, leagueId, orgId);
    if found.None? then Err(InvalidOperation("League not found."))
    else
      var name := t.leagues[found.value].name;
      var totals := Statistics.LeagueTotals(t, orgId, Statistics.LeagueQuizIds(t.quizzes, orgId, leagueId));
      if !ValidSheetName(SheetName(name)) then Err(InvalidArgument(InvalidSheetNameMessage))
      else Ok(LeagueSheetOf(t.teams, name, Descending(totals)))
  }

  /** The league export succeeds exactly when the league is found, live, in
      the organization and its cut name is a valid worksheet name. */
  lemma LeagueSheetOutcome(t: Tables, orgId: Id, leagueId: Id)
    ensures var found := Statistics.FindLeague(t.leagues, leagueId, orgId);
      var r := LeagueSheet(t, orgId, leagueId);
      && (found.None? ==> r == Err(InvalidOperation("League not found.")))
      && (found.Some? && !ValidSheetName(SheetName(t.leagues[found.value].name)) ==>
            r == Err(InvalidArgument(InvalidSheetNameMessage)))
      && (r.Ok? <==> found.Some? && ValidSheetName(SheetName(t.leagues[found.value].name)))
  {
  }

  /** The sheet of a found league, given its ordered totals. */
  function LeagueSheetOf(teams: seq<Team>, name: string, ordered: seq<Standing>): Sheet {
    Sheet(SheetName(name), Rows(Written(LeagueTitle(name), 4, 1, LeagueColumns), 5, LeagueRows(teams, ordered)))
  }

  /** Three cells written one after the other from column 1. */
  lemma WrittenThree(m: Cells, r: int, a: Cell, b: Cell, c: Cell)
    ensures Written(m, r, 1, [a, b, c]) == m[(r, 1) := a][(r, 2) := b][(r, 3) := c]
  {
    WrittenSnoc(m, r, 1, [], a);
    WrittenSnoc(m, r, 1, [a], b);
    WrittenSnoc(m, r, 1, [a, b], c);
    assert [a] + [b] == [a, b] && [a, b] + [c] == [a, b, c];
  }

  /** `ExportLeagueToExcelAsync`: the totals summed by the nested loop, then
      one row written per team. */
  method ExportLeague(t: Tables, orgId: Id, leagueId: Id) returns (r: Result<Sheet, Error>)
    ensures r == LeagueSheet(t, orgId, leagueId)
  {
    var found := Statistics.FindLeague(t.leagues, leagueId, orgId);
    if found.None? {
      return Err(InvalidOperation("League not found."));
    }
    var league := t.leagues[found.value];
    var quizIds := Statistics.LeagueQuizIds(t.quizzes, orgId, leagueId);
    var totals := Statistics.SumRankings(t, orgId, quizIds);
    var ordered := Descending(totals);
    if !ValidSheetName(SheetName(league.name)) {
      return Err(InvalidArgument(InvalidSheetNameMessage));
    }
    var cells := LeagueTitle(league.name);
    cells := cells[(4, 1) := Str("Rank")][(4, 2) := Str("Team")][(4, 3) := Str("Total points")];
    WrittenThree(LeagueTitle(league.name), 4, Str("Rank"), Str("Team"), Str("Total points"));
    cells := WriteLeagueRows(cells, t.teams, ordered);
    r := Ok(Sheet(SheetName(league.name), cells));
  }

  /** The row loop of the league export. */
  method WriteLeagueRows(header: Cells, teams: seq<Team>, ordered: seq<Standing>) returns (cells: Cells)
    ensures cells == Rows(header, 5, LeagueRows(teams, ordered))
  {
    cells := header;
    var row := 5;
    var i := 0;
    while i < |ordered|
      invariant 0 <= i <= |ordered| && row == 5 + i
      invariant cells == Rows(header, 5, LeagueRows(teams, ordered[..i]))
    {
      var teamId, points := ordered[i].teamId, ordered[i].points;
      ghost var before := cells;
      cells := cells[(row, 1) := Num(i + 1)];
      cells := cells[(row, 2) := Str(TeamNameOrId(teams, teamId))];
      cells := cells[(row, 3) := Num(points)];
      LeagueRowWritten(header, teams, ordered, i, before);
      row := row + 1;
      i := i + 1;
    }
    assert ordered[..i] == ordered;
  }

  /** Writing the rank, name and total of standing `i` into row `5 + i` adds
      its row to the rows written so far. */
  lemma LeagueRowWritten(header: Cells, teams: seq<Team>, ordered: seq<Standing>, i: nat, before: Cells)
    requires i < |ordered|
    requires before == Rows(header, 5, LeagueRows(teams, ordered[..i]))
    ensures before[(5 + i, 1) := Num(i + 1)][(5 + i, 2) := Str(TeamNameOrId(teams, ordered[i].teamId))]
      [(5 + i, 3) := Num(ordered[i].points)] == Rows(header, 5, LeagueRows(teams, ordered[..i + 1]))
  {
    var done := LeagueRows(teams, ordered[..i]);
    var next := LeagueRow(teams, ordered[i], i + 1);
    assert ordered[..i + 1][..i] == ordered[..i];
    assert LeagueRows(teams, ordered[..i + 1]) == done + [next];
    WrittenThree(before, 5 + i, Num(i + 1), Str(TeamNameOrId(teams, ordered[i].teamId)), Num(ordered[i].points));
    RowsSnoc(header, 5, done, next);
  }

  /** The league sheet's name, its title cells and its header row 4. */
  predicate LeagueHeaderLaidOut(sheet: Sheet, name: string) {
    && sheet.name == SheetName(name)
    && At(sheet.cells, 1, 1) == Some(Str(name))
    && At(sheet.cells, 2, 1) == Some(Str("League standings"))
    && At(sheet.cells, 4, 1) == Some(Str("Rank"))
    && At(sheet.cells, 4, 2) == Some(Str("Team"))
    && At(sheet.cells, 4, 3) == Some(Str("Total points"))
  }

  /** The league sheet's rows: from row 5, one row per standing of `ordered`,
      holding its rank, the team's name (or id) and its total; nothing below
      the last team. */
  predicate LeagueRowsLaidOut(cells: Cells, teams: seq<Team>, ordered: seq<Standing>) {
    && (forall i :: 0 <= i < |ordered| ==> LeagueRowLaidOut(cells, teams, ordered, i))
    && At(cells, 5 + |ordered|, 1) == None
  }

  /** Row `5 + i` holds rank `i + 1`, the team's name (or id) and its total. */
  predicate LeagueRowLaidOut(cells: Cells, teams: seq<Team>, ordered: seq<Standing>, i: nat)
    requires i < |ordered|
  {
    && At(cells, 5 + i, 1) == Some(Num(i + 1))
    && At(cells, 5 + i, 2) == Some(Str(TeamNameOrId(teams, ordered[i].teamId)))
    && At(cells, 5 + i, 3) == Some(Num(ordered[i].points))
  }

  /** The layout of an exported league: its title and header, then the league
      totals best first (see `LeagueOrderFacts` for what each total is). */
  lemma LeagueSheetLayout(t: Tables, orgId: Id, leagueId: Id)
    requires LeagueSheet(t, orgId, leagueId).Ok?
    ensures var sheet := LeagueSheet(t, orgId, leagueId).value;
      var quizIds := Statistics.LeagueQuizIds(t.quizzes, orgId, leagueId);
      && LeagueHeaderLaidOut(sheet, t.leagues[Statistics.FindLeague(t.leagues, leagueId, orgId).value].name)
      && LeagueRowsLaidOut(sheet.cells, t.teams, Descending(Statistics.LeagueTotals(t, orgId, quizIds)))
  {
    var name := t.leagues[Statistics.FindLeague(t.leagues, leagueId, orgId).value].name;
    var ordered := Descending(Statistics.LeagueTotals(t, orgId, Statistics.LeagueQuizIds(t.quizzes, orgId, leagueId)));
    assert LeagueSheet(t, orgId, leagueId) == Ok(LeagueSheetOf(t.teams, name, ordered));
    LeagueSheetOfLayout(t.teams, name, ordered);
  }

  lemma LeagueSheetOfLayout(teams: seq<Team>, name: string, ordered: seq<Standing>)
    ensures LeagueHeaderLaidOut(LeagueSheetOf(teams, name, ordered), name)
    ensures LeagueRowsLaidOut(LeagueSheetOf(teams, name, ordered).cells, teams, ordered)
  {
    var title := LeagueTitle(name);
    var header := Written(title, 4, 1, LeagueColumns);
    var rows := LeagueRows(teams, ordered);
    var cells := Rows(header, 5, rows);
    assert LeagueRowsLaidOut(cells, teams, ordered) by {
      forall i | 0 <= i < |ordered| ensures LeagueRowLaidOut(cells, teams, ordered, i) {
        LeagueRowCells(header, teams, ordered, i);
      }
      AtRows(header, 5, rows, 5 + |ordered|, 1);
      AtWritten(title, 4, 1, LeagueColumns, 5 + |ordered|, 1);
    }
    forall c | 1 <= c <= 3 ensures At(cells, 4, c) == Some(LeagueColumns[c - 1]) {
      AtRows(header, 5, rows, 4, c);
      AtWritten(title, 4, 1, LeagueColumns, 4, c);
    }
    AtRows(header, 5, rows, 1, 1);
    AtWritten(title, 4, 1, LeagueColumns, 1, 1);
    AtRows(header, 5, rows, 2, 1);
    AtWritten(title, 4, 1, LeagueColumns, 2, 1);
  }

  /** The three cells of standing `i` below any header. */
  lemma LeagueRowCells(header: Cells, teams: seq<Team>, ordered: seq<Standing>, i: nat)
    requires i < |ordered|
    ensures LeagueRowLaidOut(Rows(header, 5, LeagueRows(teams, ordered)), teams, ordered, i)
  {
    var rows := LeagueRows(teams, ordered);
    LeagueRowsAt(teams, ordered, i);
    AtRows(header, 5, rows, 5 + i, 1);
    AtRows(header, 5, rows, 5 + i, 2);
    AtRows(header, 5, rows, 5 + i, 3);
  }

  /** The descending league totals: each shown value is the team's summed
      ranking value, and exactly the teams ranked in some quiz are listed. */
  lemma LeagueOrderFacts(t: Tables, orgId: Id, quizIds: seq<Id>)
    ensures var ordered := Descending(Statistics.LeagueTotals(t, orgId, quizIds));
      && (forall i :: 0 <= i < |ordered| ==>
            ordered[i].points == Statistics.RankingSum(t, orgId, quizIds, ordered[i].teamId))
      && (forall i, j :: 0 <= i < j < |ordered| ==>
            Statistics.RankingSum(t, orgId, quizIds, ordered[i].teamId)
              >= Statistics.RankingSum(t, orgId, quizIds, ordered[j].teamId))
      && (forall teamId :: (exists i :: 0 <= i < |ordered| && ordered[i].teamId == teamId)
            <==> Statistics.InSomeRanking(t, orgId, quizIds, teamId))
  {
    var totals := Statistics.LeagueTotals(t, orgId, quizIds);
    var ordered := Descending(totals);
    DescendingKeys(totals);
    forall i | 0 <= i < |ordered|
      ensures ordered[i].points == Statistics.RankingSum(t, orgId, quizIds, ordered[i].teamId)
    {
      Statistics.LeagueTotalIsSum(t, orgId, quizIds, ordered[i].teamId);
    }
    forall teamId ensures (exists i :: 0 <= i < |ordered| && ordered[i].teamId == teamId)
      <==> Statistics.InSomeRanking(t, orgId, quizIds, teamId)
    {
      Statistics.LeagueTotalIsSum(t, orgId, quizIds, teamId);
    }
  }

  /** Sorting keeps each team's value and the set of teams listed. */
  lemma DescendingKeys(r: seq<Standing>)
    requires DistinctTeams(r)
    ensures var o := Descending(r);
      && (forall i :: 0 <= i < |o| ==> o[i].points == ValueOrZero(r, o[i].teamId))
      && (forall teamId :: (exists i :: 0 <= i < |o| && o[i].teamId == teamId) <==> HasKey(r, teamId))
  {
    var o := Descending(r);
    TeamOrderFacts(r);
    forall teamId ensures (exists i :: 0 <= i < |o| && o[i].teamId == teamId) <==> HasKey(r, teamId) {
      var order := TeamOrder(r);
      if exists i :: 0 <= i < |o| && o[i].teamId == teamId {
        var i :| 0 <= i < |o| && o[i].teamId == teamId;
        assert order[i] == teamId;
      }
      if HasKey(r, teamId) {
        assert teamId in order;
        var i :| 0 <= i < |order| && order[i] == teamId;
        assert o[i].teamId == teamId;
      }
    }
  }
}

/** `ImportFromExcelAsync`: reads a quiz from the first worksheet of an
    uploaded workbook and stores it, finding or creating each category and
    team by name.

    The import talks to the store in several steps: the quiz is only staged,
    but every category or team it has to create is saved at once, which also
    commits whatever is staged by then. The model keeps the staged tables in
    `pending` and the committed ones in the `Db`. Any exception ends the
    import with `(false, message)`. */
module ExcelImport {
  import opened Wrappers
  import opened Domain
  import opened Store
  import opened Sheets
  import Ordering
  import Quizzes

  const InvalidVersionMessage := "Invalid template version."
  const InvalidDateMessage := "Invalid date."

  /** The message of the exception `SaveChanges` throws when the database
      rejects a row. */
  const SaveFailedMessage := "An error occurred while saving the entity changes. See the inner exception for details."

  /** The message of the exception the change tracker throws when a second
      quiz-category link with the same key is added. */
  const TrackingConflictMessage :=
    "The instance of entity type 'QuizCategory' cannot be tracked because another instance with the same key value for {'QuizId', 'CategoryId'} is already being tracked. When attaching existing entities, ensure that only one entity instance with a given key value is attached. Consider using 'DbContextOptionsBuilder.EnableSensitiveDataLogging' to see the conflicting key values."

  // Reading the sheet.

  /** `cols.Skip(1).Take(cols.Count - 2)`: the header row without its first
      and its last column. */
  function CategoryNames(cols: seq<string>): (names: seq<string>)
    ensures |cols| >= 2 ==> names == cols[1..|cols| - 1]
    ensures |cols| < 2 ==> names == []
  {
    Ordering.Take(Ordering.Skip(cols, 1), |cols| - 2)
  }

  /** The header loop: the texts of row 4 from column 1 up to the first empty
      cell. */
  method ReadHeader(cells: Cells) returns (cols: seq<string>)
    ensures cols == ReadRow(cells, 4, 1)
  {
    cols := [];
    var c := 1;
    while true
      invariant ReadRow(cells, 4, 1) == cols + ReadRow(cells, 4, c)
      decreases |RowAhead(cells, 4, c)|
    {
      var val := GetString(cells, 4, c);
      ReadRowStep(cells, 4, c);
      if val == "" {
        break;
      }
      cols := cols + [val];
      c := c + 1;
    }
    assert cols + [] == cols;
  }

  /** `Cell(row, col).TryGetValue(out int v) ? v : 0`. */
  function CellPoints(cells: Cells, row: int, col: int): Int32 {
    TryGetInt(cells, row, col).GetOr(0)
  }

  // Finding categories and teams by name.

  /** The category lookup: query filters switched off, the organization, the
      name and the deletion flag compared explicitly. */
  predicate CategoryMatches(c: Category, orgId: Id, name: string) {
    c.meta.orgId == orgId && c.name == name && !c.meta.isDeleted
  }

  predicate TeamMatches(x: Team, orgId: Id, name: string) {
    x.meta.orgId == orgId && x.name == name && !x.meta.isDeleted
  }

  /** `FirstOrDefaultAsync` over the categories, in table order. */
  function FindCategory(cats: seq<Category>, orgId: Id, name: string): (r: Option<Category>)
    ensures r.Some? ==> r.value in cats && CategoryMatches(r.value, orgId, name)
    ensures r.None? <==> forall c :: c in cats ==> !CategoryMatches(c, orgId, name)
  {
    if cats == [] then None
    else if CategoryMatches(cats[0], orgId, name) then Some(cats[0])
    else
      assert forall c :: c in cats ==> c == cats[0] || c in cats[1..];
      FindCategory(cats[1..], orgId, name)
  }

  /** `FirstOrDefaultAsync` over the teams, in table order. */
  function FindTeam(teams: seq<Team>, orgId: Id, name: string): (r: Option<Team>)
    ensures r.Some? ==> r.value in teams && TeamMatches(r.value, orgId, name)
    ensures r.None? <==> forall x :: x in teams ==> !TeamMatches(x, orgId, name)
  {
    if teams == [] then None
    else if TeamMatches(teams[0], orgId, name) then Some(teams[0])
    else
      assert forall x :: x in teams ==> x == teams[0] || x in teams[1..];
      FindTeam(teams[1..], orgId, name)
  }

  /** Rows added after a match do not change what the lookup finds; a match
      added when there was none is what it finds. */
  lemma {:induction false} FindCategoryAppend(cats: seq<Category>, more: seq<Category>, orgId: Id, name: string)
    ensures FindCategory(cats, orgId, name).Some? ==> FindCategory(cats + more, orgId, name) == FindCategory(cats, orgId, name)
    ensures FindCategory(cats, orgId, name).None? ==> FindCategory(cats + more, orgId, name) == FindCategory(more, orgId, name)
  {
    if cats != [] {
      assert (cats + more)[0] == cats[0];
      assert (cats + more)[1..] == cats[1..] + more;
      FindCategoryAppend(cats[1..], more, orgId, name);
    } else {
      assert cats + more == more;
    }
  }

  lemma {:induction false} FindTeamAppend(teams: seq<Team>, more: seq<Team>, orgId: Id, name: string)
    ensures FindTeam(teams, orgId, name).Some? ==> FindTeam(teams + more, orgId, name) == FindTeam(teams, orgId, name)
    ensures FindTeam(teams, orgId, name).None? ==> FindTeam(teams + more, orgId, name) == FindTeam(more, orgId, name)
  {
    if teams != [] {
      assert (teams + more)[0] == teams[0];
      assert (teams + more)[1..] == teams[1..] + more;
      FindTeamAppend(teams[1..], more, orgId, name);
    } else {
      assert teams + more == more;
    }
  }

  // The category and row loops as folds.

  /** The identifiers a loop resolved, one per name, the table after the rows
      it created, and the next free identifier. */
  datatype Resolution<T> = Resolution(ids: seq<Id>, table: seq<T>, next: nat)

  /** The category loop: each name finds the first visible category of the
      organization with that name, or creates one with the next identifier. */
  function ResolveCategories(cats: seq<Category>, orgId: Id, names: seq<string>, n: nat, now: Time): (r: Resolution<Category>)
    ensures |r.ids| == |names| && |cats| <= |r.table| && r.table[..|cats|] == cats
    ensures r.next == n + |r.table| - |cats|
  {
    if names == [] then Resolution([], cats, n)
    else CategoryStep(ResolveCategories(cats, orgId, names[..|names| - 1], n, now), orgId, names[|names| - 1], now)
  }

  lemma ResolveCategoriesSnoc(cats: seq<Category>, orgId: Id, names: seq<string>, n: nat, now: Time, i: nat)
    requires i < |names|
    ensures ResolveCategories(cats, orgId, names[..i + 1], n, now)
         == CategoryStep(ResolveCategories(cats, orgId, names[..i], n, now), orgId, names[i], now)
  {
    assert names[..i + 1][..i] == names[..i];
  }

  /** One turn of the category loop. */
  function CategoryStep(prev: Resolution<Category>, orgId: Id, name: string, now: Time): (r: Resolution<Category>)
    ensures |r.ids| == |prev.ids| + 1 && |prev.table| <= |r.table| && r.table[..|prev.table|] == prev.table
    ensures r.next == prev.next + |r.table| - |prev.table|
  {
    match FindCategory(prev.table, orgId, name)
    case Some(c) => Resolution(prev.ids + [c.id], prev.table, prev.next)
    case None => Resolution(prev.ids + [prev.next], prev.table + [Category(prev.next, NewTenant(orgId, now), name)], prev.next + 1)
  }

  /** The team half of the row loop, by the same rule. */
  function ResolveTeams(teams: seq<Team>, orgId: Id, names: seq<string>, n: nat, now: Time): (r: Resolution<Team>)
    ensures |r.ids| == |names| && |teams| <= |r.table| && r.table[..|teams|] == teams
    ensures r.next == n + |r.table| - |teams|
  {
    if names == [] then Resolution([], teams, n)
    else TeamStep(ResolveTeams(teams, orgId, names[..|names| - 1], n, now), orgId, names[|names| - 1], now)
  }

  /** One turn of the row loop's team lookup. */
  function TeamStep(prev: Resolution<Team>, orgId: Id, name: string, now: Time): (r: Resolution<Team>)
    ensures |r.ids| == |prev.ids| + 1 && |prev.table| <= |r.table| && r.table[..|prev.table|] == prev.table
    ensures r.next == prev.next + |r.table| - |prev.table|
  {
    match FindTeam(prev.table, orgId, name)
    case Some(x) => Resolution(prev.ids + [x.id], prev.table, prev.next)
    case None => Resolution(prev.ids + [prev.next], prev.table + [Team(prev.next, NewTenant(orgId, now), name)], prev.next + 1)
  }

  /** Every name resolves to the category the lookup finds for it in the
      final table, which is a category of the organization with that name. */
  lemma {:induction false} CategoryResolved(cats: seq<Category>, orgId: Id, names: seq<string>, n: nat, now: Time, i: nat)
    requires i < |names|
    ensures var r := ResolveCategories(cats, orgId, names, n, now);
      FindCategory(r.table, orgId, names[i]).Some? && FindCategory(r.table, orgId, names[i]).value.id == r.ids[i]
  {
    var init := names[..|names| - 1];
    var prev := ResolveCategories(cats, orgId, init, n, now);
    CategoryStepKeeps(prev, orgId, names[|names| - 1], now, names[i]);
    if i < |init| {
      assert names[i] == init[i];
      CategoryResolved(cats, orgId, init, n, now, i);
    }
  }

  /** One turn keeps every earlier identifier and every lookup that already
      succeeded, and resolves its own name to what the lookup then finds. */
  lemma CategoryStepKeeps(prev: Resolution<Category>, orgId: Id, name: string, now: Time, x: string)
    ensures var r := CategoryStep(prev, orgId, name, now);
      && r.ids[..|prev.ids|] == prev.ids
      && (FindCategory(prev.table, orgId, x).Some? ==> FindCategory(r.table, orgId, x) == FindCategory(prev.table, orgId, x))
      && FindCategory(r.table, orgId, name).Some? && FindCategory(r.table, orgId, name).value.id == r.ids[|prev.ids|]
  {
    var r := CategoryStep(prev, orgId, name, now);
    var more := r.table[|prev.table|..];
    assert r.table == prev.table + more;
    FindCategoryAppend(prev.table, more, orgId, x);
    FindCategoryAppend(prev.table, more, orgId, name);
  }

  lemma {:induction false} TeamResolved(teams: seq<Team>, orgId: Id, names: seq<string>, n: nat, now: Time, i: nat)
    requires i < |names|
    ensures var r := ResolveTeams(teams, orgId, names, n, now);
      FindTeam(r.table, orgId, names[i]).Some? && FindTeam(r.table, orgId, names[i]).value.id == r.ids[i]
  {
    var init := names[..|names| - 1];
    var prev := ResolveTeams(teams, orgId, init, n, now);
    TeamStepKeeps(prev, orgId, names[|names| - 1], now, names[i]);
    if i < |init| {
      assert names[i] == init[i];
      TeamResolved(teams, orgId, init, n, now, i);
    }
  }

  lemma TeamStepKeeps(prev: Resolution<Team>, orgId: Id, name: string, now: Time, x: string)
    ensures var r := TeamStep(prev, orgId, name, now);
      && r.ids[..|prev.ids|] == prev.ids
      && (FindTeam(prev.table, orgId, x).Some? ==> FindTeam(r.table, orgId, x) == FindTeam(prev.table, orgId, x))
      && FindTeam(r.table, orgId, name).Some? && FindTeam(r.table, orgId, name).value.id == r.ids[|prev.ids|]
  {
    var r := TeamStep(prev, orgId, name, now);
    var more := r.table[|prev.table|..];
    assert r.table == prev.table + more;
    FindTeamAppend(prev.table, more, orgId, x);
    FindTeamAppend(prev.table, more, orgId, name);
  }

  /** A row is created only for a name no visible category of the
      organization had, with the next identifier, in the organization. */
  lemma {:induction false} CategoriesCreated(cats: seq<Category>, orgId: Id, names: seq<string>, n: nat, now: Time, k: nat)
    requires |cats| <= k < |ResolveCategories(cats, orgId, names, n, now).table|
    ensures var c := ResolveCategories(cats, orgId, names, n, now).table[k];
      && c == Category(n + (k - |cats|), NewTenant(orgId, now), c.name)
      && c.name in names
      && FindCategory(cats, orgId, c.name).None?
  {
    var init := names[..|names| - 1];
    var name := names[|names| - 1];
    var prev := ResolveCategories(cats, orgId, init, n, now);
    var r := ResolveCategories(cats, orgId, names, n, now);
    if k < |prev.table| {
      CategoriesCreated(cats, orgId, init, n, now, k);
      assert r.table[k] == prev.table[k];
    } else {
      assert FindCategory(prev.table, orgId, name).None?;
      assert r.table[k] == Category(prev.next, NewTenant(orgId, now), name);
      FindCategoryAppend(cats, prev.table[|cats|..], orgId, name);
      assert cats + prev.table[|cats|..] == prev.table;
    }
  }

  /** A resolution of a prefix of the names is a prefix of the resolution. */
  lemma {:induction false} ResolveTeamsPrefix(teams: seq<Team>, orgId: Id, names: seq<string>, i: nat, n: nat, now: Time)
    requires i <= |names|
    ensures ResolveTeams(teams, orgId, names[..i], n, now).ids == ResolveTeams(teams, orgId, names, n, now).ids[..i]
    decreases |names|
  {
    if i < |names| {
      var init := names[..|names| - 1];
      assert init[..i] == names[..i];
      ResolveTeamsPrefix(teams, orgId, init, i, n, now);
    } else {
      assert names[..i] == names;
    }
  }

  /** The same name twice in the header resolves to the same category. */
  lemma SameNameSameCategory(cats: seq<Category>, orgId: Id, names: seq<string>, n: nat, now: Time, i: nat, j: nat)
    requires i < |names| && j < |names| && names[i] == names[j]
    ensures ResolveCategories(cats, orgId, names, n, now).ids[i] == ResolveCategories(cats, orgId, names, n, now).ids[j]
  {
    CategoryResolved(cats, orgId, names, n, now, i);
    CategoryResolved(cats, orgId, names, n, now, j);
  }

  // The staged rows.

  /** `new QuizCategory { QuizId, CategoryId = categoryIds[i], OrderIndex = i }`
      for each category, in header order. */
  function QuizCategoryRows(quizId: Id, catIds: seq<Id>): (r: seq<QuizCategory>)
    ensures |r| == |catIds| && forall i :: 0 <= i < |r| ==> r[i] == QuizCategory(quizId, catIds[i], i)
  {
    if catIds == [] then []
    else QuizCategoryRows(quizId, catIds[..|catIds| - 1]) + [QuizCategory(quizId, catIds[|catIds| - 1], |catIds| - 1)]
  }

  /** The entries of one sheet row: one per category, holding the cell's
      integer or 0, no bonus, no notes, unlocked. */
  function RowEntries(cells: Cells, row: int, orgId: Id, quizId: Id, teamId: Id, catIds: seq<Id>, now: Time): (r: seq<ScoreEntry>)
    ensures |r| == |catIds|
    ensures forall i :: 0 <= i < |r| ==>
      r[i] == ScoreEntry(NewTenant(orgId, now), quizId, teamId, catIds[i], CellPoints(cells, row, i + 2), 0, "", false)
  {
    if catIds == [] then []
    else
      var i := |catIds| - 1;
      var last := ScoreEntry(NewTenant(orgId, now), quizId, teamId, catIds[i], CellPoints(cells, row, i + 2), 0, "", false);
      RowEntries(cells, row, orgId, quizId, teamId, catIds[..i], now) + [last]
  }

  /** The entries of every team row, the row of `teamIds[k]` being row
      `5 + k`. */
  function ImportEntries(cells: Cells, orgId: Id, quizId: Id, teamIds: seq<Id>, catIds: seq<Id>, now: Time): (r: seq<ScoreEntry>)
    ensures forall k :: 0 <= k < |r| ==> r[k].quizId == quizId && r[k].teamId in teamIds && r[k].categoryId in catIds
  {
    if teamIds == [] then []
    else
      var k := |teamIds| - 1;
      ImportEntries(cells, orgId, quizId, teamIds[..k], catIds, now) + RowEntries(cells, 5 + k, orgId, quizId, teamIds[k], catIds, now)
  }

  /** One entry per team row and category. */
  lemma {:induction false} ImportEntriesLength(cells: Cells, orgId: Id, quizId: Id, teamIds: seq<Id>, catIds: seq<Id>, now: Time)
    ensures |ImportEntries(cells, orgId, quizId, teamIds, catIds, now)| == |teamIds| * |catIds|
  {
    if teamIds != [] {
      ImportEntriesLength(cells, orgId, quizId, teamIds[..|teamIds| - 1], catIds, now);
      assert |teamIds| * |catIds| == (|teamIds| - 1) * |catIds| + |catIds|;
    }
  }

  /** The entries of the first `i` rows come first. */
  lemma {:induction false} ImportEntriesPrefix(cells: Cells, orgId: Id, quizId: Id, teamIds: seq<Id>, catIds: seq<Id>, now: Time, i: nat)
    requires i <= |teamIds|
    ensures var whole := ImportEntries(cells, orgId, quizId, teamIds, catIds, now);
      var part := ImportEntries(cells, orgId, quizId, teamIds[..i], catIds, now);
      |part| <= |whole| && whole[..|part|] == part
    decreases |teamIds|
  {
    if i < |teamIds| {
      var init := teamIds[..|teamIds| - 1];
      assert init[..i] == teamIds[..i];
      ImportEntriesPrefix(cells, orgId, quizId, init, catIds, now, i);
    } else {
      assert teamIds[..i] == teamIds;
    }
  }

  /** Reading a column one cell at a time: an empty cell ends it, any other
      is the next name. */
  lemma ReadColumnNext(cells: Cells, c: int, r: int)
    ensures GetString(cells, r, c) == "" ==> ReadColumn(cells, c, r) == []
    ensures GetString(cells, r, c) != "" ==> ReadColumn(cells, c, r) == [GetString(cells, r, c)] + ReadColumn(cells, c, r + 1)
  {
  }

  /** The tables after the rows of `teams`: the teams it created, one link
      per row and the entries of every row. */
  function WithRows(base: Tables, cells: Cells, orgId: Id, quizId: Id, catIds: seq<Id>, teams: Resolution<Team>, now: Time): Tables {
    base.(teams := teams.table,
          quizTeams := base.quizTeams + Quizzes.Links(orgId, quizId, teams.ids, now),
          scoreEntries := base.scoreEntries + ImportEntries(cells, orgId, quizId, teams.ids, catIds, now))
  }

  /** The quiz `new Quiz { ... }` builds: the name of B1, the parsed date, no
      location, finished, in no league. */
  function ImportedQuiz(id: Id, orgId: Id, cells: Cells, date: Time, now: Time): Quiz {
    Quiz(id, NewTenant(orgId, now), GetString(cells, 1, 2), date, "", Finished, None)
  }

  /** What a successful import saves, from the tables `t` and the next free
      identifier `n`. */
  datatype Plan = Plan(quiz: Quiz, categoryIds: seq<Id>, teamIds: seq<Id>, tables: Tables)

  function ImportPlan(t: Tables, n: nat, orgId: Id, cells: Cells, date: Time, now: Time): Plan {
    var quiz := ImportedQuiz(n, orgId, cells, date, now);
    var cats := ResolveCategories(t.categories, orgId, CategoryNames(ReadRow(cells, 4, 1)), n + 1, now);
    var linked := Linked(WithQuiz(t, quiz), cats.table, n, cats.ids);
    var teams := ResolveTeams(t.teams, orgId, ReadColumn(cells, 1, 5), cats.next, now);
    Plan(quiz, cats.ids, teams.ids, WithRows(linked, cells, orgId, n, cats.ids, teams, now))
  }

  /** `db.Quizzes.Add(quiz)`. */
  function WithQuiz(t: Tables, quiz: Quiz): Tables {
    t.(quizzes := t.quizzes + [quiz])
  }

  /** The tables after the category loop and the link loop: the categories
      the store now holds and one link per category of the quiz. */
  function Linked(t: Tables, cats: seq<Category>, quizId: Id, catIds: seq<Id>): Tables {
    t.(categories := cats, quizCategories := t.quizCategories + QuizCategoryRows(quizId, catIds))
  }

  // Keeping the store's invariants.

  lemma AddCategoryKeeps(t: Tables, n: nat, c: Category)
    requires Invariants(t, n) && Indexed(t) && c.id < n
    ensures Invariants(t.(categories := t.categories + [c]), n) && Indexed(t.(categories := t.categories + [c]))
  {
  }

  lemma AddTeamKeeps(t: Tables, n: nat, x: Team)
    requires Invariants(t, n) && x.id < n
    ensures Invariants(t.(teams := t.teams + [x]), n)
  {
  }

  lemma AddRowKeeps(t: Tables, n: nat, link: QuizTeam, entries: seq<ScoreEntry>)
    requires Invariants(t, n)
    requires forall e :: e in entries ==> e.quizId < n
    ensures Invariants(t.(quizTeams := t.quizTeams + [link], scoreEntries := t.scoreEntries + entries), n)
  {
  }

  /** Fewer entries cannot break a unique index the others keep: tables
      whose entries are a prefix of the entries of indexed tables, and which
      agree with them on every other indexed table, are indexed. */
  lemma IndexedPrefix(a: Tables, b: Tables)
    requires Indexed(b)
    requires a.users == b.users && a.memberships == b.memberships && a.helpUsages == b.helpUsages
    requires a.quizCategories == b.quizCategories && a.emailTokens == b.emailTokens
    requires a.resetTokens == b.resetTokens && a.shareTokens == b.shareTokens
    requires |a.scoreEntries| <= |b.scoreEntries| && b.scoreEntries[..|a.scoreEntries|] == a.scoreEntries
    ensures Indexed(a)
  {
    forall i, j | 0 <= i < j < |a.scoreEntries| ensures EntryKey(a.scoreEntries[i]) != EntryKey(a.scoreEntries[j]) {
      assert a.scoreEntries[i] == b.scoreEntries[i] && a.scoreEntries[j] == b.scoreEntries[j];
    }
  }

  /** Categories the store has committed keep the staged tables within the
      invariants: their identifiers were issued, and no index covers them. */
  lemma StagedCategoriesKeep(t: Tables, n: nat, cats: seq<Category>, n': nat, committed: Tables)
    requires Invariants(t, n) && Indexed(t) && n <= n'
    requires Invariants(committed, n') && committed.categories == cats
    ensures Invariants(t.(categories := cats), n') && Indexed(t.(categories := cats))
  {
    InvariantsMonotone(t, n, n');
  }

  /** The rows of a prefix of the team column, staged on `t`, keep the
      invariants once the store has committed the teams they name. */
  lemma StagedRowsKeep(
    t: Tables, n: nat, cells: Cells, orgId: Id, quizId: Id, catIds: seq<Id>, r: Resolution<Team>,
    n': nat, committed: Tables, now: Time)
    requires Invariants(t, n) && n <= n' && quizId < n
    requires Invariants(committed, n') && committed.teams == r.table
    ensures Invariants(WithRows(t, cells, orgId, quizId, catIds, r, now), n')
  {
    InvariantsMonotone(t, n, n');
    var entries := ImportEntries(cells, orgId, quizId, r.ids, catIds, now);
    forall e | e in t.scoreEntries + entries ensures e.quizId < n' {
      if e !in t.scoreEntries {
        var k :| 0 <= k < |entries| && entries[k] == e;
      }
    }
  }

  /** The entries of the first `i` team rows are a prefix of the entries of
      all of them. */
  lemma RowsEntriesPrefix(
    teams: seq<Team>, cells: Cells, orgId: Id, quizId: Id, catIds: seq<Id>, names: seq<string>, i: nat, n: nat, now: Time)
    requires i <= |names|
    ensures var pe := ImportEntries(cells, orgId, quizId, ResolveTeams(teams, orgId, names[..i], n, now).ids, catIds, now);
      var we := ImportEntries(cells, orgId, quizId, ResolveTeams(teams, orgId, names, n, now).ids, catIds, now);
      |pe| <= |we| && we[..|pe|] == pe
  {
    ResolveTeamsPrefix(teams, orgId, names, i, n, now);
    ImportEntriesPrefix(cells, orgId, quizId, ResolveTeams(teams, orgId, names, n, now).ids, catIds, now, i);
  }

  /** A save that fails part-way through the rows fails the whole import:
      the entries staged so far are a prefix of the entries of all rows, and
      every other indexed table is the same. */
  lemma RowsFailEarly(
    t: Tables, cells: Cells, orgId: Id, quizId: Id, catIds: seq<Id>, names: seq<string>, i: nat, n: nat, now: Time)
    requires i <= |names|
    requires !Indexed(WithRows(t, cells, orgId, quizId, catIds, ResolveTeams(t.teams, orgId, names[..i], n, now), now))
    ensures !Indexed(WithRows(t, cells, orgId, quizId, catIds, ResolveTeams(t.teams, orgId, names, n, now), now))
  {
    var a := WithRows(t, cells, orgId, quizId, catIds, ResolveTeams(t.teams, orgId, names[..i], n, now), now);
    var b := WithRows(t, cells, orgId, quizId, catIds, ResolveTeams(t.teams, orgId, names, n, now), now);
    RowsEntriesPrefix(t.teams, cells, orgId, quizId, catIds, names, i, n, now);
    EntriesPrefix(t.scoreEntries, a.scoreEntries[|t.scoreEntries|..], b.scoreEntries[|t.scoreEntries|..]);
    if Indexed(b) {
      IndexedPrefix(a, b);
    }
  }

  lemma EntriesPrefix(base: seq<ScoreEntry>, pe: seq<ScoreEntry>, we: seq<ScoreEntry>)
    requires |pe| <= |we| && we[..|pe|] == pe
    ensures |base + pe| <= |base + we| && (base + we)[..|base + pe|] == base + pe
  {
  }

  // The loops.

  /** The category loop: find each name among the committed categories, or
      create the category and save at once, with everything else staged. */
  method AddCategories(db: Db, orgId: Id, names: seq<string>, pending0: Tables, ghost cats0: seq<Category>, ghost n: nat, now: Time)
    returns (ids: seq<Id>, pending: Tables)
    requires db.Valid() && Indexed(pending0) && Invariants(pending0, db.nextId)
    requires pending0.categories == db.tables.categories == cats0 && pending0.teams == db.tables.teams && db.nextId == n
    modifies db`tables, db`nextId
    ensures var r := ResolveCategories(cats0, orgId, names, n, now);
      ids == r.ids && pending == pending0.(categories := r.table) && db.nextId == r.next
    ensures db.Valid() && db.tables.categories == pending.categories && db.tables.teams == pending.teams
  {
    ids := [];
    ghost var r := ResolveCategories(pending0.categories, orgId, [], n, now);
    var i := 0;
    while i < |names|
      invariant 0 <= i <= |names|
      invariant r == ResolveCategories(pending0.categories, orgId, names[..i], n, now)
      invariant ids == r.ids && db.tables.categories == r.table && db.nextId == r.next
      invariant db.Valid() && db.tables.teams == pending0.teams
    {
      ResolveCategoriesSnoc(pending0.categories, orgId, names, n, now, i);
      var id := FindOrCreateCategory(db, orgId, names[i], pending0, n, now, r);
      ids := ids + [id];
      r := CategoryStep(r, orgId, names[i], now);
      i := i + 1;
    }
    assert names[..i] == names;
    pending := pending0.(categories := db.tables.categories);
  }

  /** One turn of the category loop: the committed category of that name, or
      a new one, saved at once together with `staged` and the categories
      committed so far. */
  method FindOrCreateCategory(
    db: Db, orgId: Id, name: string, staged: Tables, ghost n: nat, now: Time, ghost prev: Resolution<Category>)
    returns (id: Id)
    requires db.Valid() && Indexed(staged) && Invariants(staged, n) && n <= db.nextId
    requires db.tables.teams == staged.teams
    requires prev.table == db.tables.categories && prev.next == db.nextId
    modifies db`tables, db`nextId
    ensures db.Valid() && db.tables.teams == staged.teams
    ensures var step := CategoryStep(prev, orgId, name, now);
      step.ids == prev.ids + [id] && db.tables.categories == step.table && db.nextId == step.next
    ensures match FindCategory(old(db.tables.categories), orgId, name)
      case Some(c) => id == c.id && db.tables.categories == old(db.tables.categories) && db.nextId == old(db.nextId)
      case None =>
        && id == old(db.nextId) && db.nextId == id + 1
        && db.tables.categories == old(db.tables.categories) + [Category(id, NewTenant(orgId, now), name)]
  {
    var found := FindCategory(db.tables.categories, orgId, name);
    if found.Some? {
      return found.value.id;
    }
    var cats := db.tables.categories;
    StagedCategoriesKeep(staged, n, cats, db.nextId + 1, db.tables.(categories := cats));
    id := db.NewId();
    var cat := Category(id, NewTenant(orgId, now), name);
    var pending := staged.(categories := cats);
    AddCategoryKeeps(pending, db.nextId, cat);
    var saved := db.SaveChanges(pending.(categories := cats + [cat]));
  }

  /** The team lookup of one row: the committed team of that name, or a new
      one, saved at once together with everything staged; that save fails
      exactly when the staged rows break a unique index. */
  method FindOrCreateTeam(db: Db, orgId: Id, name: string, staged: Tables, now: Time)
    returns (id: Id, saved: bool)
    requires db.Valid() && Invariants(staged, db.nextId) && db.tables.teams == staged.teams
    modifies db`tables, db`nextId
    ensures db.Valid()
    ensures match FindTeam(staged.teams, orgId, name)
      case Some(x) => saved && id == x.id && db.tables == old(db.tables) && db.nextId == old(db.nextId)
      case None =>
        var added := staged.(teams := staged.teams + [Team(id, NewTenant(orgId, now), name)]);
        && id == old(db.nextId) && db.nextId == id + 1
        && (saved <==> Indexed(staged))
        && db.tables == if saved then added else old(db.tables)
  {
    var found := FindTeam(db.tables.teams, orgId, name);
    if found.Some? {
      return found.value.id, true;
    }
    InvariantsMonotone(staged, db.nextId, db.nextId + 1);
    id := db.NewId();
    var team := Team(id, NewTenant(orgId, now), name);
    var added := staged.(teams := staged.teams + [team]);
    AddTeamKeeps(staged, db.nextId, team);
    assert Indexed(added) == Indexed(staged);
    var outcome := db.SaveChanges(added);
    saved := outcome.Pass?;
  }

  /** The row loop: rows from 5 down to the first empty team name, each
      finding or creating its team, linking it to the quiz and staging one
      entry per category. It stops early when a save fails, which only
      happens when the rows of the whole sheet break a unique index. */
  method AddRows(db: Db, cells: Cells, orgId: Id, quizId: Id, catIds: seq<Id>, pending0: Tables, now: Time)
    returns (ok: bool, pending: Tables)
    requires db.Valid() && Invariants(pending0, db.nextId) && quizId < db.nextId
    requires pending0.teams == db.tables.teams
    modifies db`tables, db`nextId
    ensures db.Valid()
    ensures var r := ResolveTeams(pending0.teams, orgId, ReadColumn(cells, 1, 5), old(db.nextId), now);
      var final := WithRows(pending0, cells, orgId, quizId, catIds, r, now);
      && (ok ==> pending == final && db.nextId == r.next && db.tables.teams == r.table)
      && (!ok ==> !Indexed(final))
  {
    ghost var names := ReadColumn(cells, 1, 5);
    ghost var n := db.nextId;
    ghost var done: seq<string> := [];
    pending := pending0;
    assert pending == WithRows(pending0, cells, orgId, quizId, catIds, ResolveTeams(pending0.teams, orgId, done, n, now), now);
    var i := 0;
    while true
      invariant i == |done| && names == done + ReadColumn(cells, 1, 5 + i)
      invariant RowsStaged(db, cells, orgId, quizId, catIds, pending0, n, done, pending, now)
      decreases |names| - i
    {
      var teamName := GetString(cells, 5 + i, 1);
      ReadColumnNext(cells, 1, 5 + i);
      if teamName == "" {
        break;
      }
      TakeOne(names, done, teamName, ReadColumn(cells, 1, 5 + (i + 1)));
      var saved;
      saved, pending := AddRow(db, cells, orgId, quizId, catIds, pending0, n, done + [teamName], 5 + i, teamName, pending, now);
      if !saved {
        RowsFailEarly(pending0, cells, orgId, quizId, catIds, names, i, n, now);
        return false, pending;
      }
      done := done + [teamName];
      i := i + 1;
    }
    assert names == done;
    ok := true;
  }

  /** Moving the next name of a column from what is left to what is read. */
  lemma TakeOne(names: seq<string>, done: seq<string>, name: string, rest: seq<string>)
    requires names == done + ([name] + rest)
    ensures names == (done + [name]) + rest
    ensures (done + [name])[..|done|] == done && names[..|done|] == done
  {
    assert names[..|done|] == done;
  }

  /** The state after the rows of `names`: the store has committed the teams
      they resolved to, and `pending` stages their links and entries on top
      of `pending0`. */
  ghost predicate RowsStaged(
    db: Db, cells: Cells, orgId: Id, quizId: Id, catIds: seq<Id>, pending0: Tables, n: nat, names: seq<string>,
    pending: Tables, now: Time)
    reads db
  {
    var r := ResolveTeams(pending0.teams, orgId, names, n, now);
    && db.Valid() && db.tables.teams == r.table && db.nextId == r.next
    && pending == WithRows(pending0, cells, orgId, quizId, catIds, r, now)
  }

  /** One turn of the row loop: the team of the last of `names`, its link to
      the quiz, and the entries of its row. */
  method AddRow(
    db: Db, cells: Cells, orgId: Id, quizId: Id, catIds: seq<Id>, pending0: Tables, ghost n: nat,
    ghost names: seq<string>, row: int, name: string, staged: Tables, now: Time)
    returns (saved: bool, pending: Tables)
    requires names != [] && name == names[|names| - 1] && row == 4 + |names|
    requires Invariants(pending0, n) && n <= db.nextId && quizId < n
    requires RowsStaged(db, cells, orgId, quizId, catIds, pending0, n, names[..|names| - 1], staged, now)
    modifies db`tables, db`nextId
    ensures saved ==> RowsStaged(db, cells, orgId, quizId, catIds, pending0, n, names, pending, now)
    ensures !saved ==> db.Valid() && !Indexed(staged)
  {
    ghost var r := ResolveTeams(pending0.teams, orgId, names[..|names| - 1], n, now);
    ghost var next := ResolveTeams(pending0.teams, orgId, names, n, now);
    assert next == TeamStep(r, orgId, name, now);
    StagedRowsKeep(pending0, n, cells, orgId, quizId, catIds, r, db.nextId, db.tables, now);
    var id;
    id, saved := FindOrCreateTeam(db, orgId, name, staged, now);
    if !saved {
      return false, staged;
    }
    var link := QuizTeam(NewTenant(orgId, now), quizId, id, None);
    var entries := AddRowEntries(staged.scoreEntries, cells, row, orgId, quizId, id, catIds, now);
    pending := staged.(teams := db.tables.teams, quizTeams := staged.quizTeams + [link], scoreEntries := entries);
    RowsStep(pending0, cells, orgId, quizId, catIds, r, next, now);
  }

  /** The rows after one more team: its link and the entries of its row. */
  lemma RowsStep(
    t: Tables, cells: Cells, orgId: Id, quizId: Id, catIds: seq<Id>, prev: Resolution<Team>, r: Resolution<Team>, now: Time)
    requires |r.ids| == |prev.ids| + 1 && r.ids[..|prev.ids|] == prev.ids
    ensures var before := WithRows(t, cells, orgId, quizId, catIds, prev, now);
      var id := r.ids[|prev.ids|];
      WithRows(t, cells, orgId, quizId, catIds, r, now)
      == before.(teams := r.table,
                 quizTeams := before.quizTeams + [QuizTeam(NewTenant(orgId, now), quizId, id, None)],
                 scoreEntries := before.scoreEntries + RowEntries(cells, 5 + |prev.ids|, orgId, quizId, id, catIds, now))
  {
    assert r.ids == prev.ids + [r.ids[|prev.ids|]];
  }

  /** The link loop: one quiz-category link per category, in header order.
      The change tracker refuses a second link with the same key, which a
      category named twice in the header produces. */
  method LinkCategories(quizId: Id, catIds: seq<Id>) returns (r: Option<seq<QuizCategory>>)
    ensures r.Some? <==> Quizzes.Distinct(catIds)
    ensures r.Some? ==> r.value == QuizCategoryRows(quizId, catIds)
  {
    var links := [];
    var i := 0;
    while i < |catIds|
      invariant 0 <= i <= |catIds|
      invariant Quizzes.Distinct(catIds[..i])
      invariant links == QuizCategoryRows(quizId, catIds[..i])
    {
      if catIds[i] in catIds[..i] {
        var j :| 0 <= j < i && catIds[..i][j] == catIds[i];
        assert catIds[j] == catIds[i];
        return None;
      }
      assert catIds[..i + 1][..i] == catIds[..i];
      links := links + [QuizCategory(quizId, catIds[i], i)];
      i := i + 1;
    }
    assert catIds[..i] == catIds;
    r := Some(links);
  }

  /** The entry loop of one row: one entry per category. */
  method AddRowEntries(
    entries0: seq<ScoreEntry>, cells: Cells, row: int, orgId: Id, quizId: Id, teamId: Id, catIds: seq<Id>, now: Time)
    returns (entries: seq<ScoreEntry>)
    ensures entries == entries0 + RowEntries(cells, row, orgId, quizId, teamId, catIds, now)
  {
    entries := entries0;
    var i := 0;
    while i < |catIds|
      invariant 0 <= i <= |catIds|
      invariant entries == entries0 + RowEntries(cells, row, orgId, quizId, teamId, catIds[..i], now)
    {
      var pts := CellPoints(cells, row, i + 2);
      assert catIds[..i + 1][..i] == catIds[..i];
      entries := entries + [ScoreEntry(NewTenant(orgId, now), quizId, teamId, catIds[i], pts, 0, "", false)];
      i := i + 1;
    }
    assert catIds[..i] == catIds;
  }

  // The import.

  /** `ImportFromExcelAsync` on the cells of the first worksheet. The date
      parser stands for `DateTime.TryParse`. A wrong version or date changes
      nothing. Otherwise the import succeeds exactly when the header names
      distinct categories and the tables of the plan keep every unique index,
      and then the store holds those tables; a category named twice makes the
      change tracker refuse the second link, and a broken index makes a save
      fail. */
  method Import(db: Db, orgId: Id, cells: Cells, templateVersion: string, parseDate: string -> Option<Time>, now: Time)
    returns (success: bool, error: Option<string>)
    requires db.Valid()
    modifies db`tables, db`nextId
    ensures db.Valid()
    ensures success <==> error.None?
    ensures GetString(cells, 1, 1) != templateVersion ==>
      error == Some(InvalidVersionMessage) && db.tables == old(db.tables)
    ensures GetString(cells, 1, 1) == templateVersion && parseDate(GetString(cells, 2, 2)).None? ==>
      error == Some(InvalidDateMessage) && db.tables == old(db.tables)
    ensures GetString(cells, 1, 1) == templateVersion && parseDate(GetString(cells, 2, 2)).Some? ==>
      Imported(old(db.tables), old(db.nextId), orgId, cells, parseDate(GetString(cells, 2, 2)).value, now,
               success, error, db.tables)
  {
    if GetString(cells, 1, 1) != templateVersion {
      return false, Some(InvalidVersionMessage);
    }
    var date := parseDate(GetString(cells, 2, 2));
    if date.None? {
      return false, Some(InvalidDateMessage);
    }
    var cols := ReadHeader(cells);
    success, error := ImportQuiz(db, orgId, cells, CategoryNames(cols), date.value, now);
    ImportedParts(old(db.tables), old(db.nextId), orgId, cells, CategoryNames(cols), date.value, now, success, error, db.tables);
  }

  /** What an import of a well-formed sheet ends with, given the tables `t`
      and the next free identifier `n` it started from. */
  ghost predicate Imported(
    t: Tables, n: nat, orgId: Id, cells: Cells, date: Time, now: Time, success: bool, error: Option<string>, after: Tables)
  {
    var plan := ImportPlan(t, n, orgId, cells, date, now);
    && (success <==> error.None?)
    && (success <==> Quizzes.Distinct(plan.categoryIds) && Indexed(plan.tables))
    && (success ==> after == plan.tables)
    && (!Quizzes.Distinct(plan.categoryIds) ==> error == Some(TrackingConflictMessage))
    && (Quizzes.Distinct(plan.categoryIds) && !Indexed(plan.tables) ==> error == Some(SaveFailedMessage))
  }

  /** `Imported`, stated over the category and team folds the way the
      service runs them: the category loop first, then the rows. */
  ghost predicate ImportedInSteps(
    t: Tables, n: nat, orgId: Id, cells: Cells, names: seq<string>, date: Time, now: Time,
    success: bool, error: Option<string>, after: Tables)
  {
    var cats := ResolveCategories(t.categories, orgId, names, n + 1, now);
    var final := WithRows(Linked(WithQuiz(t, ImportedQuiz(n, orgId, cells, date, now)), cats.table, n, cats.ids),
                          cells, orgId, n, cats.ids, ResolveTeams(t.teams, orgId, ReadColumn(cells, 1, 5), cats.next, now), now);
    && (success == error.None?)
    && (!Quizzes.Distinct(cats.ids) ==> error == Some(TrackingConflictMessage))
    && (Quizzes.Distinct(cats.ids) ==>
          && success == Indexed(final)
          && (success ==> after == final)
          && (!success ==> error == Some(SaveFailedMessage)))
  }

  lemma ImportedParts(
    t: Tables, n: nat, orgId: Id, cells: Cells, names: seq<string>, date: Time, now: Time,
    success: bool, error: Option<string>, after: Tables)
    requires names == CategoryNames(ReadRow(cells, 4, 1))
    requires ImportedInSteps(t, n, orgId, cells, names, date, now, success, error, after)
    ensures Imported(t, n, orgId, cells, date, now, success, error, after)
  {
  }

  /** The import once the version and the date have been read. */
  method ImportQuiz(db: Db, orgId: Id, cells: Cells, names: seq<string>, date: Time, now: Time)
    returns (success: bool, error: Option<string>)
    requires db.Valid()
    modifies db`tables, db`nextId
    ensures db.Valid()
    ensures ImportedInSteps(old(db.tables), old(db.nextId), orgId, cells, names, date, now, success, error, db.tables)
  {
    ghost var t := db.tables;
    ghost var n := db.nextId;
    var quizId := db.NewId();
    var quiz := ImportedQuiz(quizId, orgId, cells, date, now);
    AddQuizKeeps(t, db.nextId, quiz);
    var catIds, pending := AddCategories(db, orgId, names, WithQuiz(db.tables, quiz), t.categories, n + 1, now);
    ghost var cats := ResolveCategories(t.categories, orgId, names, n + 1, now);
    var links := LinkCategories(quizId, catIds);
    if links.None? {
      success, error := false, Some(TrackingConflictMessage);
      assert !Quizzes.Distinct(cats.ids);
    } else {
      var staged := pending.(quizCategories := pending.quizCategories + links.value);
      success, error := ImportRows(db, orgId, cells, t, quiz, catIds, staged, now);
    }
  }

  /** The row loop and the final save, once the categories are resolved and
      linked. */
  method ImportRows(db: Db, orgId: Id, cells: Cells, ghost t: Tables, quiz: Quiz, catIds: seq<Id>, staged: Tables, now: Time)
    returns (success: bool, error: Option<string>)
    requires db.Valid() && Invariants(t, quiz.id) && quiz.id < db.nextId && db.tables.teams == t.teams
    requires staged == Linked(WithQuiz(t, quiz), db.tables.categories, quiz.id, catIds)
    modifies db`tables, db`nextId
    ensures db.Valid()
    ensures var r := ResolveTeams(t.teams, orgId, ReadColumn(cells, 1, 5), old(db.nextId), now);
      var final := WithRows(Linked(WithQuiz(t, quiz), old(db.tables.categories), quiz.id, catIds), cells, orgId, quiz.id, catIds, r, now);
      && (success <==> error.None?)
      && (success <==> Indexed(final))
      && (success ==> db.tables == final)
      && (!success ==> error == Some(SaveFailedMessage))
  {
    StagedQuizKeeps(t, quiz, catIds, db.nextId, db.tables);
    ghost var n := db.nextId;
    var ok, rows := AddRows(db, cells, orgId, quiz.id, catIds, staged, now);
    if !ok {
      return false, Some(SaveFailedMessage);
    }
    StagedRowsKeep(staged, n, cells, orgId, quiz.id, catIds, ResolveTeams(staged.teams, orgId, ReadColumn(cells, 1, 5), n, now),
                   db.nextId, db.tables, now);
    var saved := db.SaveChanges(rows);
    if saved.Fail? {
      return false, Some(SaveFailedMessage);
    }
    return true, None;
  }

  /** The staged quiz keeps the indexes and, with its identifier issued, the
      invariants. */
  lemma AddQuizKeeps(t: Tables, n: nat, quiz: Quiz)
    requires Indexed(t) && Invariants(t, quiz.id) && quiz.id < n
    ensures Indexed(WithQuiz(t, quiz)) && Invariants(WithQuiz(t, quiz), n)
  {
    InvariantsMonotone(t, quiz.id, n);
  }

  /** The staged quiz, the categories the store has committed and the
      quiz's category links keep the invariants. */
  lemma StagedQuizKeeps(t: Tables, quiz: Quiz, catIds: seq<Id>, n: nat, committed: Tables)
    requires Invariants(t, quiz.id) && quiz.id < n
    requires Invariants(committed, n)
    ensures Invariants(Linked(WithQuiz(t, quiz), committed.categories, quiz.id, catIds), n)
  {
    InvariantsMonotone(t, quiz.id, n);
    var rows := QuizCategoryRows(quiz.id, catIds);
    forall qc | qc in t.quizCategories + rows ensures qc.quizId < n {
      if qc !in t.quizCategories {
        var k :| 0 <= k < |rows| && rows[k] == qc;
      }
    }
  }
}

/** The scoring service: the ranking of one quiz of one organization.

    The source builds a dictionary from team id to ranking value by grouping the
    visible score entries of the quiz by team, summing `Points + BonusPoints`
    per group, and doubling a group's sum once when the team is in the joker
    set: the distinct teams with a visible help usage in the quiz whose help
    type has the DoubleScore behaviour. The dictionary is modelled as a
    sequence of standings in its enumeration order, which for a dictionary
    built by `ToDictionary` over `GroupBy` is the order in which each team's
    first row appears. */
module Scoring {
  import opened Domain
  import opened Wrappers
  import Ordering

  /** One key/value pair of the ranking dictionary. */
  datatype Standing = Standing(teamId: Id, points: int)

  /** One row of a ranking response: 1-based rank, team and value. */
  datatype RankRow = RankRow(rank: nat, teamId: Id, points: int)

  /** The rows the entry query returns: the soft-delete filter, then the
      organization and the quiz. */
  predicate InScope(e: ScoreEntry, orgId: Id, quizId: Id) {
    !e.meta.isDeleted && e.meta.orgId == orgId && e.quizId == quizId
  }

  function RowPoints(e: ScoreEntry): int {
    e.points + e.bonusPoints
  }

  function Scoped(entries: seq<ScoreEntry>, orgId: Id, quizId: Id): (r: seq<ScoreEntry>)
    ensures forall e :: e in r <==> e in entries && InScope(e, orgId, quizId)
  {
    if entries == [] then []
    else
      var init := entries[..|entries| - 1];
      var e := entries[|entries| - 1];
      assert entries == init + [e];
      var rest := Scoped(init, orgId, quizId);
      if InScope(e, orgId, quizId) then rest + [e] else rest
  }

  /** The sum of `Points + BonusPoints` over the rows of team `teamId`. */
  function TeamTotal(rows: seq<ScoreEntry>, teamId: Id): int {
    if rows == [] then 0
    else
      var e := rows[|rows| - 1];
      TeamTotal(rows[..|rows| - 1], teamId) + (if e.teamId == teamId then RowPoints(e) else 0)
  }

  /** The keys of `GroupBy(TeamId)`: each team once, in order of first row. */
  function TeamOrder(rows: seq<ScoreEntry>): (r: seq<Id>)
    ensures forall i, j :: 0 <= i < j < |r| ==> r[i] != r[j]
    ensures forall e :: e in rows ==> e.teamId in r
    ensures forall t :: t in r ==> exists e :: e in rows && e.teamId == t
  {
    if rows == [] then []
    else
      var init := rows[..|rows| - 1];
      var e := rows[|rows| - 1];
      assert rows == init + [e];
      var rest := TeamOrder(init);
      if e.teamId in rest then rest else rest + [e.teamId]
  }

  /** A help type row that survives the soft-delete filter of the join and
      doubles a score. The join does not filter help types by organization. */
  predicate IsDoubler(helpTypes: seq<HelpType>, helpTypeId: Id) {
    exists h :: h in helpTypes && !h.meta.isDeleted && h.id == helpTypeId && h.behavior == DoubleScore
  }

  predicate GrantsDouble(u: HelpUsage, helpTypes: seq<HelpType>, orgId: Id, quizId: Id) {
    !u.meta.isDeleted && u.meta.orgId == orgId && u.quizId == quizId && IsDoubler(helpTypes, u.helpTypeId)
  }

  /** The distinct teams that played a DoubleScore help in the quiz. */
  function Jokers(usages: seq<HelpUsage>, helpTypes: seq<HelpType>, orgId: Id, quizId: Id): set<Id> {
    set u | u in usages && GrantsDouble(u, helpTypes, orgId, quizId) :: u.teamId
  }

  function Doubled(total: int, joker: bool): int {
    if joker then total * 2 else total
  }

  /** One standing per team of `teams`, in that order: its row total,
      doubled when the team played a joker. */
  function Totals(rows: seq<ScoreEntry>, teams: seq<Id>, jokers: set<Id>): (r: seq<Standing>)
    ensures |r| == |teams| && forall i :: 0 <= i < |r| ==> r[i].teamId == teams[i]
  {
    seq(|teams|, i requires 0 <= i < |teams| => Standing(teams[i], Doubled(TeamTotal(rows, teams[i]), teams[i] in jokers)))
  }

  /** `ComputeRankingAsync(quizId, orgId)`. */
  function ComputeRanking(
    entries: seq<ScoreEntry>, usages: seq<HelpUsage>, helpTypes: seq<HelpType>,
    orgId: Id, quizId: Id): (r: seq<Standing>)
    ensures forall i, j :: 0 <= i < j < |r| ==> r[i].teamId != r[j].teamId
    ensures forall e :: e in entries && InScope(e, orgId, quizId) ==> HasKey(r, e.teamId)
    ensures forall i :: 0 <= i < |r| ==>
      exists e :: e in entries && InScope(e, orgId, quizId) && e.teamId == r[i].teamId
  {
    var rows := Scoped(entries, orgId, quizId);
    var teams := TeamOrder(rows);
    var jokers := Jokers(usages, helpTypes, orgId, quizId);
    var r := Totals(rows, teams, jokers);
    assert forall e :: e in entries && InScope(e, orgId, quizId) ==> HasKey(r, e.teamId) by {
      forall e | e in entries && InScope(e, orgId, quizId) ensures HasKey(r, e.teamId) {
        assert e in rows;
        var i :| 0 <= i < |teams| && teams[i] == e.teamId;
        assert r[i].teamId == e.teamId;
      }
    }
    assert forall i :: 0 <= i < |r| ==>
      exists e :: e in entries && InScope(e, orgId, quizId) && e.teamId == r[i].teamId by {
      forall i | 0 <= i < |r|
        ensures exists e :: e in entries && InScope(e, orgId, quizId) && e.teamId == r[i].teamId
      {
        assert r[i].teamId == teams[i] && teams[i] in teams;
        var e :| e in rows && e.teamId == teams[i];
        assert e in entries && InScope(e, orgId, quizId);
      }
    }
    r
  }

  predicate HasKey(r: seq<Standing>, teamId: Id) {
    exists i :: 0 <= i < |r| && r[i].teamId == teamId
  }

  /** `TryGetValue` on the ranking dictionary. */
  function Lookup(r: seq<Standing>, teamId: Id): (v: Option<int>)
    ensures v.Some? <==> HasKey(r, teamId)
    ensures v.Some? ==> exists i :: 0 <= i < |r| && r[i] == Standing(teamId, v.value)
  {
    if r == [] then None
    else if r[0].teamId == teamId then Some(r[0].points)
    else
      var v := Lookup(r[1..], teamId);
      assert HasKey(r, teamId) ==> HasKey(r[1..], teamId) by {
        if HasKey(r, teamId) {
          var i :| 0 <= i < |r| && r[i].teamId == teamId;
          assert r[1..][i - 1].teamId == teamId;
        }
      }
      assert v.Some? ==> exists i :: 0 <= i < |r| && r[i] == Standing(teamId, v.value) by {
        if v.Some? {
          var k :| 0 <= k < |r[1..]| && r[1..][k] == Standing(teamId, v.value);
          assert r[k + 1] == r[1..][k];
        }
      }
      v
  }

  /** No team has two keys. */
  predicate DistinctTeams(r: seq<Standing>) {
    forall i, j :: 0 <= i < j < |r| ==> r[i].teamId != r[j].teamId
  }

  /** In a ranking, whose teams are distinct, a lookup finds exactly the
      standings it holds. */
  lemma LookupIffIn(r: seq<Standing>, teamId: Id, points: int)
    requires DistinctTeams(r)
    ensures Lookup(r, teamId) == Some(points) <==> Standing(teamId, points) in r
  {
    if Standing(teamId, points) in r {
      var v := Lookup(r, teamId);
      assert HasKey(r, teamId);
      var i :| 0 <= i < |r| && r[i] == Standing(teamId, v.value);
      var k :| 0 <= k < |r| && r[k] == Standing(teamId, points);
      assert i == k;
    }
  }

  /** `GetValueOrDefault(teamId, 0)`. */
  function ValueOrZero(r: seq<Standing>, teamId: Id): int {
    Lookup(r, teamId).GetOr(0)
  }

  // Properties of the ranking.

  /** The ranking maps a team to its doubled-once row sum exactly when the team
      has a visible row in the quiz, and has no key for any other team. */
  lemma RankingLookup(
    entries: seq<ScoreEntry>, usages: seq<HelpUsage>, helpTypes: seq<HelpType>,
    orgId: Id, quizId: Id, teamId: Id)
    ensures Lookup(ComputeRanking(entries, usages, helpTypes, orgId, quizId), teamId)
         == if exists e :: e in entries && InScope(e, orgId, quizId) && e.teamId == teamId
            then Some(Doubled(TeamTotal(Scoped(entries, orgId, quizId), teamId),
                              teamId in Jokers(usages, helpTypes, orgId, quizId)))
            else None
  {
    var r := ComputeRanking(entries, usages, helpTypes, orgId, quizId);
    var v := Lookup(r, teamId);
    if exists e :: e in entries && InScope(e, orgId, quizId) && e.teamId == teamId {
      var e :| e in entries && InScope(e, orgId, quizId) && e.teamId == teamId;
      assert HasKey(r, e.teamId);
      var i :| 0 <= i < |r| && r[i] == Standing(teamId, v.value);
      var teams := TeamOrder(Scoped(entries, orgId, quizId));
      assert r[i].teamId == teams[i];
    }
  }

  lemma {:induction false} TeamTotalAppend(a: seq<ScoreEntry>, b: seq<ScoreEntry>, teamId: Id)
    ensures TeamTotal(a + b, teamId) == TeamTotal(a, teamId) + TeamTotal(b, teamId)
  {
    if b != [] {
      var init := b[..|b| - 1];
      assert (a + b)[..|a + b| - 1] == a + init;
      TeamTotalAppend(a, init, teamId);
    } else {
      assert a + b == a;
    }
  }

  /** Only the rows of the team count towards its total. */
  lemma {:induction false} TeamTotalOtherTeams(rows: seq<ScoreEntry>, teamId: Id)
    requires forall e :: e in rows ==> e.teamId != teamId
    ensures TeamTotal(rows, teamId) == 0
  {
    if rows != [] {
      TeamTotalOtherTeams(rows[..|rows| - 1], teamId);
    }
  }

  lemma {:induction false} ScopedAppend(entries: seq<ScoreEntry>, e: ScoreEntry, orgId: Id, quizId: Id)
    ensures Scoped(entries + [e], orgId, quizId)
         == Scoped(entries, orgId, quizId) + (if InScope(e, orgId, quizId) then [e] else [])
  {
    assert (entries + [e])[..|entries + [e]| - 1] == entries;
  }

  lemma {:induction false} ScopedIdempotent(entries: seq<ScoreEntry>, orgId: Id, quizId: Id)
    ensures Scoped(Scoped(entries, orgId, quizId), orgId, quizId) == Scoped(entries, orgId, quizId)
  {
    if entries != [] {
      var init := entries[..|entries| - 1];
      var e := entries[|entries| - 1];
      assert entries == init + [e];
      ScopedIdempotent(init, orgId, quizId);
      ScopedAppend(Scoped(init, orgId, quizId), e, orgId, quizId);
    }
  }

  /** Rows of other organizations, of other quizzes and soft-deleted rows do
      not affect the ranking: it is the same when computed from the visible
      rows of the quiz alone. */
  lemma ForeignEntriesIgnored(
    entries: seq<ScoreEntry>, usages: seq<HelpUsage>, helpTypes: seq<HelpType>, orgId: Id, quizId: Id)
    ensures ComputeRanking(Scoped(entries, orgId, quizId), usages, helpTypes, orgId, quizId)
         == ComputeRanking(entries, usages, helpTypes, orgId, quizId)
  {
    ScopedIdempotent(entries, orgId, quizId);
  }

  /** Adding a row outside the scope leaves the ranking unchanged. */
  lemma ForeignEntryNoEffect(
    entries: seq<ScoreEntry>, e: ScoreEntry, usages: seq<HelpUsage>, helpTypes: seq<HelpType>,
    orgId: Id, quizId: Id)
    requires !InScope(e, orgId, quizId)
    ensures ComputeRanking(entries + [e], usages, helpTypes, orgId, quizId)
         == ComputeRanking(entries, usages, helpTypes, orgId, quizId)
  {
    ScopedAppend(entries, e, orgId, quizId);
  }

  lemma JokersAppend(usages: seq<HelpUsage>, u: HelpUsage, helpTypes: seq<HelpType>, orgId: Id, quizId: Id)
    ensures Jokers(usages + [u], helpTypes, orgId, quizId)
         == Jokers(usages, helpTypes, orgId, quizId)
            + (if GrantsDouble(u, helpTypes, orgId, quizId) then {u.teamId} else {})
  {
    var before := Jokers(usages, helpTypes, orgId, quizId);
    var after := Jokers(usages + [u], helpTypes, orgId, quizId);
    forall t | t in after
      ensures t in before || (GrantsDouble(u, helpTypes, orgId, quizId) && t == u.teamId)
    {
      var w :| w in usages + [u] && GrantsDouble(w, helpTypes, orgId, quizId) && w.teamId == t;
      if w != u {
        assert w in usages;
      }
    }
  }

  /** A usage whose help type does not double a score (a MarkerOnly help, a
      deleted or unknown help type) never changes the ranking. */
  lemma MarkerOnlyNoEffect(
    entries: seq<ScoreEntry>, usages: seq<HelpUsage>, u: HelpUsage, helpTypes: seq<HelpType>,
    orgId: Id, quizId: Id)
    requires !IsDoubler(helpTypes, u.helpTypeId)
    ensures ComputeRanking(entries, usages + [u], helpTypes, orgId, quizId)
         == ComputeRanking(entries, usages, helpTypes, orgId, quizId)
  {
    JokersAppend(usages, u, helpTypes, orgId, quizId);
  }

  /** A team that already holds a joker is doubled once: a further DoubleScore
      usage for it changes nothing. */
  lemma DoubledAtMostOnce(
    entries: seq<ScoreEntry>, usages: seq<HelpUsage>, u: HelpUsage, helpTypes: seq<HelpType>,
    orgId: Id, quizId: Id)
    requires u.teamId in Jokers(usages, helpTypes, orgId, quizId)
    ensures ComputeRanking(entries, usages + [u], helpTypes, orgId, quizId)
         == ComputeRanking(entries, usages, helpTypes, orgId, quizId)
  {
    JokersAppend(usages, u, helpTypes, orgId, quizId);
    assert Jokers(usages + [u], helpTypes, orgId, quizId) == Jokers(usages, helpTypes, orgId, quizId);
  }

  // The ordered response of the ranking endpoints.

  function PointsOf(s: Standing): int {
    s.points
  }

  /** `OrderByDescending(x => x.Value)` over the ranking. */
  function Descending(r: seq<Standing>): (o: seq<Standing>)
    ensures multiset(o) == multiset(r)
    ensures forall i, j :: 0 <= i < j < |o| ==> o[i].points >= o[j].points
  {
    var o := Ordering.SortDesc(r, PointsOf);
    assert Ordering.SortedDesc(o, PointsOf);
    o
  }

  /** `Select((x, index) => new { rank = index + 1, ... })`. */
  function RankRows(o: seq<Standing>): (rows: seq<RankRow>)
    ensures |rows| == |o|
    ensures forall i :: 0 <= i < |o| ==> rows[i] == RankRow(i + 1, o[i].teamId, o[i].points)
  {
    seq(|o|, i requires 0 <= i < |o| => RankRow(i + 1, o[i].teamId, o[i].points))
  }

  /** Teams with equal value keep their dictionary order in the response. */
  lemma DescendingStable(r: seq<Standing>, points: int)
    ensures Ordering.WithKey(Descending(r), PointsOf, points) == Ordering.WithKey(r, PointsOf, points)
  {
    Ordering.SortDescStable(r, PointsOf, points);
  }

  // The reference scenario: team A scores (10, 0) and (5, 2) and plays a
  // joker; team B scores (8, 0) twice.

  const TeamA: Id := 1
  const TeamB: Id := 2
  const JokerType: Id := 10

  function ScenarioEntry(teamId: Id, categoryId: Id, points: Int32, bonus: Int32): ScoreEntry {
    ScoreEntry(NewTenant(100, 0), 200, teamId, categoryId, points, bonus, "", false)
  }

  const ScenarioEntries: seq<ScoreEntry> :=
    [ScenarioEntry(TeamA, 1, 10, 0), ScenarioEntry(TeamA, 2, 5, 2),
     ScenarioEntry(TeamB, 1, 8, 0), ScenarioEntry(TeamB, 2, 8, 0)]
  const ScenarioUsages: seq<HelpUsage> := [HelpUsage(NewTenant(100, 0), 200, TeamA, JokerType)]
  const ScenarioHelpTypes: seq<HelpType> := [HelpType(JokerType, NewTenant(100, 0), "Joker", DoubleScore)]

  lemma ScenarioJokers()
    ensures Jokers(ScenarioUsages, ScenarioHelpTypes, 100, 200) == {TeamA}
  {
    assert ScenarioHelpTypes[0] in ScenarioHelpTypes;
    assert ScenarioUsages[0] in ScenarioUsages;
  }

  lemma ScenarioRows()
    ensures Scoped(ScenarioEntries, 100, 200) == ScenarioEntries
  {
    ScopedAllInScope(ScenarioEntries, 100, 200);
  }

  /** Rows that are all in scope are kept as they are. */
  lemma {:induction false} ScopedAllInScope(entries: seq<ScoreEntry>, orgId: Id, quizId: Id)
    requires forall i :: 0 <= i < |entries| ==> InScope(entries[i], orgId, quizId)
    ensures Scoped(entries, orgId, quizId) == entries
  {
    if entries != [] {
      var init := entries[..|entries| - 1];
      ScopedAllInScope(init, orgId, quizId);
      ScopedAppend(init, entries[|entries| - 1], orgId, quizId);
      assert entries == init + [entries[|entries| - 1]];
    }
  }

  lemma ScenarioTeams()
    ensures TeamOrder(ScenarioEntries) == [TeamA, TeamB]
  {
    var rows := ScenarioEntries;
    var p1, p2, p3 := rows[..1], rows[..2], rows[..3];
    assert p1[..0] == [] && p2[..1] == p1 && p3[..2] == p2 && rows[..3] == p3;
    assert TeamOrder(p1) == [TeamA];
    assert TeamOrder(p2) == [TeamA];
    assert TeamOrder(p3) == [TeamA, TeamB];
  }

  lemma ScenarioTotals()
    ensures TeamTotal(ScenarioEntries, TeamA) == 17 && TeamTotal(ScenarioEntries, TeamB) == 16
  {
    var rows := ScenarioEntries;
    var p1, p2, p3 := rows[..1], rows[..2], rows[..3];
    assert p1[..0] == [] && p2[..1] == p1 && p3[..2] == p2 && rows[..3] == p3;
    assert TeamTotal(p1, TeamA) == 10 && TeamTotal(p1, TeamB) == 0;
    assert TeamTotal(p2, TeamA) == 17 && TeamTotal(p2, TeamB) == 0;
    assert TeamTotal(p3, TeamA) == 17 && TeamTotal(p3, TeamB) == 8;
  }

  lemma ScenarioRanking()
    ensures ComputeRanking(ScenarioEntries, ScenarioUsages, ScenarioHelpTypes, 100, 200)
         == [Standing(TeamA, 34), Standing(TeamB, 16)]
  {
    ScenarioJokers();
    ScenarioRows();
    ScenarioTeams();
    ScenarioTotals();
    var r := Totals(ScenarioEntries, [TeamA, TeamB], {TeamA});
    assert ComputeRanking(ScenarioEntries, ScenarioUsages, ScenarioHelpTypes, 100, 200) == r;
    assert r[0] == Standing(TeamA, 34) && r[1] == Standing(TeamB, 16);
  }

  /** The reference scenario ends with A ranked first on 34 and B second on 16. */
  lemma Scenario()
    ensures RankRows(Descending(ComputeRanking(ScenarioEntries, ScenarioUsages, ScenarioHelpTypes, 100, 200)))
         == [RankRow(1, TeamA, 34), RankRow(2, TeamB, 16)]
  {
    ScenarioRanking();
    ScenarioOrder();
  }

  /** The scenario's ranking is already in descending order. */
  lemma ScenarioOrder()
    ensures Descending([Standing(TeamA, 34), Standing(TeamB, 16)]) == [Standing(TeamA, 34), Standing(TeamB, 16)]
  {
    var r := [Standing(TeamA, 34), Standing(TeamB, 16)];
    assert r[1..][1..] == [];
    assert Ordering.SortDesc(r[1..], PointsOf) == [r[1]];
    assert Ordering.InsertDesc(r[0], [r[1]], PointsOf) == r;
  }
}

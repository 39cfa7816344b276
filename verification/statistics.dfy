/** The statistics service: quiz summaries with their winner and paging, the
    league standings summed over the league's quizzes, and a team's history
    of ranks. Each reads the committed tables of the store. */
module Statistics {
  import opened Wrappers
  import opened Domain
  import opened Store
  import opened Scoring
  import Ordering

  /** The ranking of one quiz of the organization. */
  function RankingOf(t: Tables, orgId: Id, quizId: Id): (r: seq<Standing>)
    ensures DistinctTeams(r)
  {
    ComputeRanking(t.scoreEntries, t.helpUsages, t.helpTypes, orgId, quizId)
  }

  // Selecting quizzes.

  /** The optional filters of the summary query. */
  datatype QuizFilter = QuizFilter(from: Option<Time>, to: Option<Time>, leagueId: Option<Id>, teamId: Option<Id>)

  const NoFilter: QuizFilter := QuizFilter(None, None, None, None)

  /** The team took part: a visible quiz-team link. */
  predicate PlaysIn(quizTeams: seq<QuizTeam>, quizId: Id, teamId: Id) {
    exists qt :: qt in quizTeams && !qt.meta.isDeleted && qt.quizId == quizId && qt.teamId == teamId
  }

  /** A visible quiz of the organization that passes every filter given. */
  predicate Matches(t: Tables, orgId: Id, f: QuizFilter, q: Quiz) {
    && !q.meta.isDeleted && q.meta.orgId == orgId
    && (f.from.Some? ==> q.date >= f.from.value)
    && (f.to.Some? ==> q.date <= f.to.value)
    && (f.leagueId.Some? ==> q.leagueId == f.leagueId)
    && (f.teamId.Some? ==> PlaysIn(t.quizTeams, q.id, f.teamId.value))
  }

  /** The query's quizzes, in table order. */
  function Selected(t: Tables, orgId: Id, f: QuizFilter, quizzes: seq<Quiz>): (r: seq<Quiz>)
    ensures |r| <= |quizzes|
    ensures forall q :: q in r <==> q in quizzes && Matches(t, orgId, f, q)
  {
    if quizzes == [] then []
    else
      var init := quizzes[..|quizzes| - 1];
      var q := quizzes[|quizzes| - 1];
      assert quizzes == init + [q];
      var rest := Selected(t, orgId, f, init);
      if Matches(t, orgId, f, q) then rest + [q] else rest
  }

  function DateOf(q: Quiz): int {
    q.date
  }

  /** `OrderByDescending(q => q.DateUtc)`: newest first. */
  function Newest(quizzes: seq<Quiz>): (r: seq<Quiz>)
    ensures multiset(r) == multiset(quizzes) && |r| == |quizzes|
    ensures forall i, j :: 0 <= i < j < |r| ==> r[i].date >= r[j].date
  {
    var r := Ordering.SortDesc(quizzes, DateOf);
    assert Ordering.SortedDesc(r, DateOf);
    r
  }

  // Quiz summaries.

  datatype QuizSummary = QuizSummary(
    quizId: Id, name: string, date: Time, location: string, status: QuizStatus,
    teamCount: nat, categoryCount: nat, winnerTeamId: Option<Id>, winnerPoints: int)

  /** `FirstOrDefault()` of the ordered ranking: the top team and its value,
      or no team and 0 for an empty ranking. */
  function Winner(r: seq<Standing>): (w: (Option<Id>, int))
    requires DistinctTeams(r)
    ensures w.0.None? <==> r == []
    ensures w.0.None? ==> w.1 == 0
    ensures w.0.Some? ==> Lookup(r, w.0.value) == Some(w.1)
    ensures forall s :: s in r ==> s.points <= w.1
    ensures w.0.Some? ==> exists i :: (0 <= i < |r| && r[i] == Standing(w.0.value, w.1)
      && forall k :: 0 <= k < i ==> r[k].points < w.1)
  {
    var ordered := Descending(r);
    if ordered == [] then (None, 0)
    else
      Ordering.SortDescHead(r, PointsOf);
      assert forall s :: s in r ==> s in multiset(ordered);
      assert ordered[0] in multiset(r);
      LookupIffIn(r, ordered[0].teamId, ordered[0].points);
      (Some(ordered[0].teamId), ordered[0].points)
  }

  /** A visible link of the team table to the quiz. */
  predicate LinksTeam(qt: QuizTeam, quizId: Id) {
    !qt.meta.isDeleted && qt.quizId == quizId
  }

  function LinksTeamOf(quizId: Id): QuizTeam -> bool {
    (qt: QuizTeam) => LinksTeam(qt, quizId)
  }

  function OfQuizOf(quizId: Id): QuizCategory -> bool {
    (qc: QuizCategory) => qc.quizId == quizId
  }

  /** The number of visible quiz-team links of the quiz; the count has no
      organization filter. */
  function TeamCount(quizTeams: seq<QuizTeam>, quizId: Id): (n: nat)
    ensures n == |set i | 0 <= i < |quizTeams| && LinksTeam(quizTeams[i], quizId)|
    ensures n <= |quizTeams|
  {
    var counted := LinksTeamOf(quizId);
    assert Ordering.Positions(quizTeams, counted) == set i | 0 <= i < |quizTeams| && LinksTeam(quizTeams[i], quizId);
    Ordering.Count(quizTeams, counted)
  }

  /** The number of category links of the quiz (the table has no query
      filter). */
  function QuizCategoryCount(qcs: seq<QuizCategory>, quizId: Id): (n: nat)
    ensures n == |set i | 0 <= i < |qcs| && qcs[i].quizId == quizId|
    ensures n <= |qcs|
    ensures n == 0 <==> forall qc :: qc in qcs ==> qc.quizId != quizId
  {
    var counted := OfQuizOf(quizId);
    assert Ordering.Positions(qcs, counted) == set i | 0 <= i < |qcs| && qcs[i].quizId == quizId;
    Ordering.Count(qcs, counted)
  }

  /** The distinct categories of the quiz's visible score entries. */
  function EntryCategories(entries: seq<ScoreEntry>, quizId: Id): set<Id> {
    set e | e in entries && !e.meta.isDeleted && e.quizId == quizId :: e.categoryId
  }

  /** The category count: the number of the quiz's category links, or, when
      it has none, the number of distinct categories among its visible
      entries. */
  function CategoryCount(t: Tables, quizId: Id): (n: nat)
    ensures (exists qc :: qc in t.quizCategories && qc.quizId == quizId) ==>
      n == |set i | 0 <= i < |t.quizCategories| && t.quizCategories[i].quizId == quizId|
    ensures (forall qc :: qc in t.quizCategories ==> qc.quizId != quizId) ==>
      n == |set e | e in t.scoreEntries && !e.meta.isDeleted && e.quizId == quizId :: e.categoryId|
  {
    var n := QuizCategoryCount(t.quizCategories, quizId);
    if n == 0 then |EntryCategories(t.scoreEntries, quizId)| else n
  }

  /** The summary of one quiz. */
  function Summary(t: Tables, orgId: Id, q: Quiz): (s: QuizSummary)
    ensures s.quizId == q.id && s.name == q.name && s.date == q.date
    ensures s.location == q.location && s.status == q.status
    ensures s.teamCount == TeamCount(t.quizTeams, q.id) && s.categoryCount == CategoryCount(t, q.id)
    ensures s.winnerTeamId.None? <==> RankingOf(t, orgId, q.id) == []
    ensures s.winnerTeamId.Some? ==> Lookup(RankingOf(t, orgId, q.id), s.winnerTeamId.value) == Some(s.winnerPoints)
    ensures forall x :: x in RankingOf(t, orgId, q.id) ==> x.points <= s.winnerPoints
  {
    var w := Winner(RankingOf(t, orgId, q.id));
    QuizSummary(q.id, q.name, q.date, q.location, q.status,
      TeamCount(t.quizTeams, q.id), CategoryCount(t, q.id), w.0, w.1)
  }

  /** The page of quizzes `GetQuizSummariesAsync` summarizes. */
  function SummaryPage(t: Tables, orgId: Id, f: QuizFilter, page: Int32, pageSize: Int32): (r: seq<Quiz>)
    ensures |r| <= |Selected(t, orgId, f, t.quizzes)|
    ensures pageSize > 0 ==> |r| <= pageSize
    ensures pageSize <= 0 ==> r == []
  {
    Ordering.Page(Newest(Selected(t, orgId, f, t.quizzes)), page, pageSize)
  }

  /** `GetQuizSummariesAsync(orgId, from, to, leagueId, teamId, page, pageSize)`:
      the summaries of one page of the newest-first matching quizzes, and the
      number of matching quizzes on all pages. */
  method QuizSummaries(t: Tables, orgId: Id, f: QuizFilter, page: Int32, pageSize: Int32)
    returns (items: seq<QuizSummary>, total: nat)
    ensures total == |Selected(t, orgId, f, t.quizzes)|
    ensures var shown := SummaryPage(t, orgId, f, page, pageSize);
      |items| == |shown| && forall i :: 0 <= i < |items| ==> items[i] == Summary(t, orgId, shown[i])
  {
    var query := Selected(t, orgId, f, t.quizzes);
    total := |query|;
    var quizzes := SummaryPage(t, orgId, f, page, pageSize);
    items := SummarizeEach(t, orgId, quizzes);
  }

  /** The loop that builds one summary per quiz of the page. */
  method SummarizeEach(t: Tables, orgId: Id, quizzes: seq<Quiz>) returns (items: seq<QuizSummary>)
    ensures |items| == |quizzes| && forall i :: 0 <= i < |items| ==> items[i] == Summary(t, orgId, quizzes[i])
  {
    items := [];
    var i := 0;
    while i < |quizzes|
      invariant 0 <= i <= |quizzes| && |items| == i
      invariant forall k :: 0 <= k < i ==> items[k] == Summary(t, orgId, quizzes[k])
    {
      items := items + [Summary(t, orgId, quizzes[i])];
      i := i + 1;
    }
  }

  /** Every summarized quiz is a quiz of the table that passes the filters. */
  lemma SummaryPageMatches(t: Tables, orgId: Id, f: QuizFilter, page: Int32, pageSize: Int32, q: Quiz)
    requires q in SummaryPage(t, orgId, f, page, pageSize)
    ensures q in t.quizzes && Matches(t, orgId, f, q)
  {
    var selected := Selected(t, orgId, f, t.quizzes);
    var ordered := Newest(selected);
    PageMember(ordered, page, pageSize, q);
    assert q in multiset(ordered);
  }

  lemma PageMember(s: seq<Quiz>, page: Int32, pageSize: Int32, q: Quiz)
    requires q in Ordering.Page(s, page, pageSize)
    ensures q in s
  {
    var r := Ordering.Page(s, page, pageSize);
    var k := Ordering.Skipped(Ordering.PageOffset(page, pageSize), |s|);
    var i :| 0 <= i < |r| && r[i] == q;
    assert s[k + i] == q;
  }

  // League standings.

  datatype TeamRank = TeamRank(teamId: Id, name: string, rank: nat, points: int)

  datatype LeagueSummary = LeagueSummary(leagueId: Id, name: string, quizCount: nat, topTeams: seq<TeamRank>)

  /** The league lookup: the query filter is switched off and the deletion
      flag compared explicitly, together with the organization. */
  function FindLeague(leagues: seq<League>, leagueId: Id, orgId: Id): (r: Option<nat>)
    ensures r.Some? ==>
      r.value < |leagues| && leagues[r.value].id == leagueId
      && leagues[r.value].meta.orgId == orgId && !leagues[r.value].meta.isDeleted
    ensures r.None? <==> forall l :: l in leagues ==> l.id != leagueId || l.meta.orgId != orgId || l.meta.isDeleted
  {
    if leagues == [] then None
    else if leagues[0].id == leagueId && leagues[0].meta.orgId == orgId && !leagues[0].meta.isDeleted then Some(0)
    else
      var r := FindLeague(leagues[1..], leagueId, orgId);
      assert forall l :: l in leagues ==> l == leagues[0] || l in leagues[1..];
      if r.Some? then Some(r.value + 1) else None
  }

  /** A visible quiz of the organization that belongs to the league. */
  predicate InLeague(q: Quiz, orgId: Id, leagueId: Id) {
    !q.meta.isDeleted && q.meta.orgId == orgId && q.leagueId == Some(leagueId)
  }

  function InLeagueOf(orgId: Id, leagueId: Id): Quiz -> bool {
    q => InLeague(q, orgId, leagueId)
  }

  /** The ids of the quizzes, in their order. */
  function QuizIds(qs: seq<Quiz>): (ids: seq<Id>)
    ensures |ids| == |qs| && forall k :: 0 <= k < |qs| ==> ids[k] == qs[k].id
  {
    seq(|qs|, k requires 0 <= k < |qs| => qs[k].id)
  }

  /** The ids of the league's visible quizzes of the organization, one per
      quiz, in table order (see `LeagueQuizIdsAppend`). */
  function LeagueQuizIds(quizzes: seq<Quiz>, orgId: Id, leagueId: Id): (ids: seq<Id>)
    ensures |ids| <= |quizzes|
    ensures |ids| == |set i | 0 <= i < |quizzes| && InLeague(quizzes[i], orgId, leagueId)|
    ensures forall id :: id in ids <==> exists q :: q in quizzes && InLeague(q, orgId, leagueId) && q.id == id
  {
    var inLeague := InLeagueOf(orgId, leagueId);
    var league := Ordering.Where(quizzes, inLeague);
    Ordering.WhereMembers(quizzes, inLeague);
    Ordering.WhereCount(quizzes, inLeague);
    assert Ordering.Positions(quizzes, inLeague) == set i | 0 <= i < |quizzes| && InLeague(quizzes[i], orgId, leagueId);
    var ids := QuizIds(league);
    assert forall id :: id in ids <==> exists q :: q in quizzes && InLeague(q, orgId, leagueId) && q.id == id by {
      forall id ensures id in ids <==> exists q :: q in quizzes && InLeague(q, orgId, leagueId) && q.id == id {
        if id in ids {
          var k :| 0 <= k < |ids| && ids[k] == id;
          assert league[k] in league;
        }
        if exists q :: q in quizzes && InLeague(q, orgId, leagueId) && q.id == id {
          var q :| q in quizzes && InLeague(q, orgId, leagueId) && q.id == id;
          assert inLeague(q);
          var k :| 0 <= k < |league| && league[k] == q;
          assert ids[k] == id;
        }
      }
    }
    ids
  }

  /** The ids keep the table order: the ids of a concatenation are the ids of
      its parts, one after the other. */
  lemma LeagueQuizIdsAppend(a: seq<Quiz>, b: seq<Quiz>, orgId: Id, leagueId: Id)
    ensures LeagueQuizIds(a + b, orgId, leagueId) == LeagueQuizIds(a, orgId, leagueId) + LeagueQuizIds(b, orgId, leagueId)
  {
    var inLeague := InLeagueOf(orgId, leagueId);
    Ordering.WhereAppend(a, b, inLeague);
    var wa, wb := Ordering.Where(a, inLeague), Ordering.Where(b, inLeague);
    assert QuizIds(wa + wb) == QuizIds(wa) + QuizIds(wb);
  }

  /** The name of a team, deleted or not, or "" when there is none
      (`StatisticsService.cs:62`, `ShareService.cs:48`). */
  function TeamName(teams: seq<Team>, teamId: Id): string {
    if teams == [] then ""
    else if teams[0].id == teamId then teams[0].name
    else TeamName(teams[1..], teamId)
  }

  /** The position of the team's key (`FindIndex`). */
  function IndexOfTeam(r: seq<Standing>, teamId: Id): (i: Option<nat>)
    ensures i.Some? ==> i.value < |r| && r[i.value].teamId == teamId
    ensures i.Some? ==> forall k :: 0 <= k < i.value ==> r[k].teamId != teamId
    ensures i.None? <==> !HasKey(r, teamId)
  {
    if r == [] then None
    else if r[0].teamId == teamId then Some(0)
    else
      var i := IndexOfTeam(r[1..], teamId);
      assert HasKey(r, teamId) ==> HasKey(r[1..], teamId) by {
        if HasKey(r, teamId) {
          var k :| 0 <= k < |r| && r[k].teamId == teamId;
          assert r[1..][k - 1].teamId == teamId;
        }
      }
      if i.Some? then Some(i.value + 1) else None
  }

  /** `teamTotals[teamId] = teamTotals.GetValueOrDefault(teamId, 0) + points`. */
  function AddPoints(totals: seq<Standing>, teamId: Id, points: int): (r: seq<Standing>)
    ensures DistinctTeams(totals) ==> DistinctTeams(r)
    ensures forall x :: HasKey(r, x) <==> HasKey(totals, x) || x == teamId
  {
    var i := IndexOfTeam(totals, teamId);
    if i.Some? then
      var r := totals[i.value := Standing(teamId, totals[i.value].points + points)];
      assert forall x :: HasKey(r, x) ==> HasKey(totals, x) by {
        forall x | HasKey(r, x) ensures HasKey(totals, x) {
          var k :| 0 <= k < |r| && r[k].teamId == x;
          assert totals[k].teamId == x;
        }
      }
      assert forall x :: HasKey(totals, x) ==> HasKey(r, x) by {
        forall x | HasKey(totals, x) ensures HasKey(r, x) {
          var k :| 0 <= k < |totals| && totals[k].teamId == x;
          assert r[k].teamId == x;
        }
      }
      r
    else
      var r := totals + [Standing(teamId, points)];
      assert forall x :: HasKey(totals, x) ==> HasKey(r, x) by {
        forall x | HasKey(totals, x) ensures HasKey(r, x) {
          var k :| 0 <= k < |totals| && totals[k].teamId == x;
          assert r[k].teamId == x;
        }
      }
      assert r[|totals|].teamId == teamId;
      assert forall x :: HasKey(r, x) ==> HasKey(totals, x) || x == teamId by {
        forall x | HasKey(r, x) ensures HasKey(totals, x) || x == teamId {
          var k :| 0 <= k < |r| && r[k].teamId == x;
          if k < |totals| {
            assert totals[k].teamId == x;
          }
        }
      }
      r
  }

  /** Adding to one team's total changes that total by the amount and no other. */
  lemma AddPointsValue(totals: seq<Standing>, teamId: Id, points: int, x: Id)
    requires DistinctTeams(totals)
    ensures ValueOrZero(AddPoints(totals, teamId, points), x) == ValueOrZero(totals, x) + (if x == teamId then points else 0)
  {
    var r := AddPoints(totals, teamId, points);
    var i := IndexOfTeam(totals, teamId);
    var before := Lookup(totals, x);
    var after := Lookup(r, x);
    if i.Some? {
      if x == teamId {
        LookupIffIn(totals, x, totals[i.value].points);
        LookupIffIn(r, x, totals[i.value].points + points);
        assert r[i.value] == Standing(x, totals[i.value].points + points);
      } else if before.Some? {
        LookupIffIn(totals, x, before.value);
        LookupIffIn(r, x, before.value);
        var k :| 0 <= k < |totals| && totals[k] == Standing(x, before.value);
        assert r[k] == totals[k];
      }
    } else {
      if x == teamId {
        LookupIffIn(r, x, points);
        assert r[|totals|] == Standing(x, points);
      } else if before.Some? {
        LookupIffIn(totals, x, before.value);
        LookupIffIn(r, x, before.value);
        var k :| 0 <= k < |totals| && totals[k] == Standing(x, before.value);
        assert r[k] == totals[k];
      }
    }
  }

  /** The inner loop of the league fold: every standing of one ranking added. */
  function Accumulate(totals: seq<Standing>, ranking: seq<Standing>): (r: seq<Standing>)
    ensures DistinctTeams(totals) ==> DistinctTeams(r)
    ensures forall x :: HasKey(r, x) <==> HasKey(totals, x) || HasKey(ranking, x)
  {
    if ranking == [] then totals
    else
      var init := ranking[..|ranking| - 1];
      var last := ranking[|ranking| - 1];
      assert forall x :: HasKey(ranking, x) <==> HasKey(init, x) || x == last.teamId by {
        forall x ensures HasKey(ranking, x) <==> HasKey(init, x) || x == last.teamId {
          if HasKey(ranking, x) {
            var k :| 0 <= k < |ranking| && ranking[k].teamId == x;
            if k < |init| {
              assert init[k].teamId == x;
            }
          }
          if HasKey(init, x) {
            var k :| 0 <= k < |init| && init[k].teamId == x;
            assert ranking[k].teamId == x;
          }
        }
      }
      AddPoints(Accumulate(totals, init), last.teamId, last.points)
  }

  lemma AccumulateSnoc(totals: seq<Standing>, ranks: seq<Standing>, j: nat)
    requires j < |ranks|
    ensures Accumulate(totals, ranks[..j + 1]) == AddPoints(Accumulate(totals, ranks[..j]), ranks[j].teamId, ranks[j].points)
  {
    assert ranks[..j + 1][..j] == ranks[..j];
  }

  /** With distinct keys, a lookup in a sequence splits at its last element. */
  lemma ValueOrZeroSnoc(r: seq<Standing>, x: Id)
    requires r != [] && DistinctTeams(r)
    ensures ValueOrZero(r, x)
         == ValueOrZero(r[..|r| - 1], x) + (if r[|r| - 1].teamId == x then r[|r| - 1].points else 0)
  {
    var init := r[..|r| - 1];
    var last := r[|r| - 1];
    var v := Lookup(r, x);
    var w := Lookup(init, x);
    if v.Some? {
      LookupIffIn(r, x, v.value);
      var k :| 0 <= k < |r| && r[k] == Standing(x, v.value);
      if k < |init| {
        assert init[k] == r[k];
        LookupIffIn(init, x, v.value);
        assert last.teamId != x;
      } else {
        assert forall j :: 0 <= j < |init| ==> init[j].teamId != x;
      }
    } else {
      assert !HasKey(r, x);
      assert forall j :: 0 <= j < |init| ==> init[j] == r[j];
    }
  }

  /** The inner loop adds each team's value in the ranking to its total. */
  lemma {:induction false} AccumulateValue(totals: seq<Standing>, ranking: seq<Standing>, x: Id)
    requires DistinctTeams(totals) && DistinctTeams(ranking)
    ensures ValueOrZero(Accumulate(totals, ranking), x) == ValueOrZero(totals, x) + ValueOrZero(ranking, x)
  {
    if ranking != [] {
      var init := ranking[..|ranking| - 1];
      var last := ranking[|ranking| - 1];
      AccumulateValue(totals, init, x);
      AddPointsValue(Accumulate(totals, init), last.teamId, last.points, x);
      ValueOrZeroSnoc(ranking, x);
    }
  }

  /** `teamTotals` after the nested loop over the quizzes' rankings. */
  function LeagueTotals(t: Tables, orgId: Id, quizIds: seq<Id>): (r: seq<Standing>)
    ensures DistinctTeams(r)
  {
    if quizIds == [] then []
    else Accumulate(LeagueTotals(t, orgId, quizIds[..|quizIds| - 1]), RankingOf(t, orgId, quizIds[|quizIds| - 1]))
  }

  /** The sum of a team's ranking values over the quizzes (0 where absent). */
  function RankingSum(t: Tables, orgId: Id, quizIds: seq<Id>, teamId: Id): int {
    if quizIds == [] then 0
    else RankingSum(t, orgId, quizIds[..|quizIds| - 1], teamId) + ValueOrZero(RankingOf(t, orgId, quizIds[|quizIds| - 1]), teamId)
  }

  /** The team has a key in the ranking of one of the quizzes. */
  predicate InSomeRanking(t: Tables, orgId: Id, quizIds: seq<Id>, teamId: Id) {
    quizIds != [] &&
    (InSomeRanking(t, orgId, quizIds[..|quizIds| - 1], teamId) || HasKey(RankingOf(t, orgId, quizIds[|quizIds| - 1]), teamId))
  }

  /** A league total is the sum of the team's per-quiz ranking values, and a
      team has a total exactly when it is ranked in some quiz of the league. */
  lemma {:induction false} LeagueTotalIsSum(t: Tables, orgId: Id, quizIds: seq<Id>, teamId: Id)
    ensures ValueOrZero(LeagueTotals(t, orgId, quizIds), teamId) == RankingSum(t, orgId, quizIds, teamId)
    ensures HasKey(LeagueTotals(t, orgId, quizIds), teamId) <==> InSomeRanking(t, orgId, quizIds, teamId)
  {
    if quizIds != [] {
      var init := quizIds[..|quizIds| - 1];
      LeagueTotalIsSum(t, orgId, init, teamId);
      AccumulateValue(LeagueTotals(t, orgId, init), RankingOf(t, orgId, quizIds[|quizIds| - 1]), teamId);
    }
  }

  /** The nested loop of `GetLeagueSummaryAsync` that fills `teamTotals`. */
  method SumRankings(t: Tables, orgId: Id, quizIds: seq<Id>) returns (totals: seq<Standing>)
    ensures totals == LeagueTotals(t, orgId, quizIds)
  {
    totals := [];
    var i := 0;
    while i < |quizIds|
      invariant 0 <= i <= |quizIds|
      invariant totals == LeagueTotals(t, orgId, quizIds[..i])
    {
      totals := AddRanking(totals, RankingOf(t, orgId, quizIds[i]));
      assert quizIds[..i + 1][..i] == quizIds[..i];
      i := i + 1;
    }
    assert quizIds[..i] == quizIds;
  }

  /** The inner loop: each (team, value) of one ranking added to `totals`. */
  method AddRanking(totals: seq<Standing>, ranks: seq<Standing>) returns (r: seq<Standing>)
    ensures r == Accumulate(totals, ranks)
  {
    r := totals;
    var j := 0;
    while j < |ranks|
      invariant 0 <= j <= |ranks|
      invariant r == Accumulate(totals, ranks[..j])
    {
      var teamId, points := ranks[j].teamId, ranks[j].points;
      AccumulateSnoc(totals, ranks, j);
      ghost var next := AddPoints(r, teamId, points);
      var k := IndexOfTeam(r, teamId);
      if k.Some? {
        r := r[k.value := Standing(teamId, r[k.value].points + points)];
      } else {
        r := r + [Standing(teamId, points)];
      }
      assert r == next;
      j := j + 1;
    }
    assert ranks[..j] == ranks;
  }

  /** The numbered rows of an ordered list of totals, with team names. */
  function TopTeams(teams: seq<Team>, ordered: seq<Standing>): (rows: seq<TeamRank>)
    ensures |rows| == |ordered|
    ensures forall i :: 0 <= i < |rows| ==>
      rows[i] == TeamRank(ordered[i].teamId, TeamName(teams, ordered[i].teamId), i + 1, ordered[i].points)
  {
    seq(|ordered|, i requires 0 <= i < |ordered| =>
      TeamRank(ordered[i].teamId, TeamName(teams, ordered[i].teamId), i + 1, ordered[i].points))
  }

  const LeagueTopCount: int := 20

  /** `GetLeagueSummaryAsync(orgId, leagueId)`. */
  method LeagueSummaryOf(t: Tables, orgId: Id, leagueId: Id) returns (r: Option<LeagueSummary>)
    ensures FindLeague(t.leagues, leagueId, orgId).None? <==> r.None?
    ensures r.Some? ==>
      var quizIds := LeagueQuizIds(t.quizzes, orgId, leagueId);
      var totals := LeagueTotals(t, orgId, quizIds);
      && r.value.leagueId == leagueId
      && r.value.name == t.leagues[FindLeague(t.leagues, leagueId, orgId).value].name
      && r.value.quizCount == |quizIds|
      && r.value.topTeams == TopTeams(t.teams, Ordering.Take(Descending(totals), LeagueTopCount))
  {
    var found := FindLeague(t.leagues, leagueId, orgId);
    if found.None? {
      return None;
    }
    var quizIds := LeagueQuizIds(t.quizzes, orgId, leagueId);
    var totals := SumRankings(t, orgId, quizIds);
    var ordered := Ordering.Take(Descending(totals), LeagueTopCount);
    r := Some(LeagueSummary(leagueId, t.leagues[found.value].name, |quizIds|, TopTeams(t.teams, ordered)));
  }

  /** The standings list at most 20 teams, best first, numbered from 1, and
      each shows the team's summed value over the league's quizzes. */
  lemma LeagueStandings(t: Tables, orgId: Id, leagueId: Id)
    ensures var quizIds := LeagueQuizIds(t.quizzes, orgId, leagueId);
      var rows := TopTeams(t.teams, Ordering.Take(Descending(LeagueTotals(t, orgId, quizIds)), LeagueTopCount));
      && |rows| <= LeagueTopCount
      && (forall i, j :: 0 <= i < j < |rows| ==> rows[i].points >= rows[j].points)
      && (forall i :: 0 <= i < |rows| ==>
            rows[i].rank == i + 1 && rows[i].points == RankingSum(t, orgId, quizIds, rows[i].teamId))
  {
    var quizIds := LeagueQuizIds(t.quizzes, orgId, leagueId);
    var totals := LeagueTotals(t, orgId, quizIds);
    var rows := TopTeams(t.teams, Ordering.Take(Descending(totals), LeagueTopCount));
    TopRowsShowTotals(t.teams, totals, LeagueTopCount);
    forall i | 0 <= i < |rows| ensures rows[i].points == RankingSum(t, orgId, quizIds, rows[i].teamId) {
      LeagueTotalIsSum(t, orgId, quizIds, rows[i].teamId);
    }
  }

  /** The first `count` rows of ordered totals, best first and numbered from
      1, each showing its team's total. */
  lemma TopRowsShowTotals(teams: seq<Team>, totals: seq<Standing>, count: int)
    requires DistinctTeams(totals)
    ensures var rows := TopTeams(teams, Ordering.Take(Descending(totals), count));
      && |rows| <= |totals| && (count >= 0 ==> |rows| <= count)
      && (forall i, j :: 0 <= i < j < |rows| ==> rows[i].points >= rows[j].points)
      && (forall i :: 0 <= i < |rows| ==> rows[i].rank == i + 1 && ValueOrZero(totals, rows[i].teamId) == rows[i].points)
  {
    var ordered := Descending(totals);
    var top := Ordering.Take(ordered, count);
    var rows := TopTeams(teams, top);
    assert |ordered| == |totals| by {
      assert |multiset(ordered)| == |multiset(totals)|;
    }
    forall i | 0 <= i < |rows| ensures ValueOrZero(totals, rows[i].teamId) == rows[i].points {
      assert top[i] == ordered[i];
      assert ordered[i] in multiset(totals);
      LookupIffIn(totals, ordered[i].teamId, ordered[i].points);
    }
  }

  // A team's history.

  /** The quizzes of the history: the team's visible quizzes of the
      organization, in the league if one is given, newest first, at most
      `limit` of them. */
  function HistoryQuizzes(t: Tables, orgId: Id, teamId: Id, leagueId: Option<Id>, limit: int): seq<Quiz> {
    Ordering.Take(Newest(Selected(t, orgId, QuizFilter(None, None, leagueId, Some(teamId)), t.quizzes)), limit)
  }

  /** The history row of one quiz, or none when the team is not ranked in it. */
  function HistoryRow(t: Tables, orgId: Id, teamId: Id, name: string, q: Quiz): (row: Option<TeamRank>)
    ensures row.None? <==> !HasKey(RankingOf(t, orgId, q.id), teamId)
  {
    var ranks := RankingOf(t, orgId, q.id);
    var i := IndexOfTeam(Descending(ranks), teamId);
    DescendingKeys(ranks, teamId);
    if i.None? then None
    else Some(TeamRank(teamId, name, i.value + 1, ValueOrZero(ranks, teamId)))
  }

  /** Ordering the ranking keeps its keys. */
  lemma DescendingKeys(r: seq<Standing>, teamId: Id)
    ensures HasKey(Descending(r), teamId) <==> HasKey(r, teamId)
  {
    var o := Descending(r);
    if HasKey(r, teamId) {
      var k :| 0 <= k < |r| && r[k].teamId == teamId;
      assert r[k] in multiset(o);
    }
    if HasKey(o, teamId) {
      var k :| 0 <= k < |o| && o[k].teamId == teamId;
      assert o[k] in multiset(r);
    }
  }

  /** A history row shows the team's 1-based position in the ordered ranking
      and its ranking value. */
  lemma HistoryRowRank(t: Tables, orgId: Id, teamId: Id, name: string, q: Quiz)
    requires HistoryRow(t, orgId, teamId, name, q).Some?
    ensures var row := HistoryRow(t, orgId, teamId, name, q).value;
      var ordered := Descending(RankingOf(t, orgId, q.id));
      && 1 <= row.rank <= |ordered|
      && ordered[row.rank - 1] == Standing(teamId, row.points)
      && (forall k :: 0 <= k < row.rank - 1 ==> ordered[k].teamId != teamId)
      && Lookup(RankingOf(t, orgId, q.id), teamId) == Some(row.points)
  {
    var ranks := RankingOf(t, orgId, q.id);
    var ordered := Descending(ranks);
    var i := IndexOfTeam(ordered, teamId).value;
    assert ordered[i] in multiset(ranks);
    LookupIffIn(ranks, teamId, ordered[i].points);
  }

  /** The rows the loop collects for `quizzes`. */
  function HistoryRows(t: Tables, orgId: Id, teamId: Id, name: string, quizzes: seq<Quiz>): (rows: seq<TeamRank>)
    ensures |rows| <= |quizzes|
  {
    if quizzes == [] then []
    else
      var row := HistoryRow(t, orgId, teamId, name, quizzes[|quizzes| - 1]);
      HistoryRows(t, orgId, teamId, name, quizzes[..|quizzes| - 1]) + (if row.Some? then [row.value] else [])
  }

  lemma HistoryRowsSnoc(t: Tables, orgId: Id, teamId: Id, name: string, quizzes: seq<Quiz>, i: nat)
    requires i < |quizzes|
    ensures var row := HistoryRow(t, orgId, teamId, name, quizzes[i]);
      HistoryRows(t, orgId, teamId, name, quizzes[..i + 1])
        == HistoryRows(t, orgId, teamId, name, quizzes[..i]) + (if row.Some? then [row.value] else [])
  {
    assert quizzes[..i + 1][..i] == quizzes[..i];
  }

  /** `GetTeamHistoryAsync(orgId, teamId, leagueId, limit)`. */
  method TeamHistory(t: Tables, orgId: Id, teamId: Id, leagueId: Option<Id>, limit: int) returns (results: seq<TeamRank>)
    ensures results == HistoryRows(t, orgId, teamId, TeamName(t.teams, teamId), HistoryQuizzes(t, orgId, teamId, leagueId, limit))
    ensures limit <= 0 ==> results == []
    ensures |results| <= |HistoryQuizzes(t, orgId, teamId, leagueId, limit)|
  {
    var quizzes := HistoryQuizzes(t, orgId, teamId, leagueId, limit);
    results := CollectHistory(t, orgId, teamId, TeamName(t.teams, teamId), quizzes);
  }

  /** The loop of `GetTeamHistoryAsync` over the selected quizzes. */
  method CollectHistory(t: Tables, orgId: Id, teamId: Id, name: string, quizzes: seq<Quiz>) returns (results: seq<TeamRank>)
    ensures results == HistoryRows(t, orgId, teamId, name, quizzes)
  {
    results := [];
    var i := 0;
    while i < |quizzes|
      invariant 0 <= i <= |quizzes|
      invariant results == HistoryRows(t, orgId, teamId, name, quizzes[..i])
    {
      // The rank is the 1-based position in the ordered ranking; 0 means absent.
      var row := HistoryRow(t, orgId, teamId, name, quizzes[i]);
      HistoryRowsSnoc(t, orgId, teamId, name, quizzes, i);
      if row.Some? {
        results := results + [row.value];
      }
      i := i + 1;
    }
    assert quizzes[..i] == quizzes;
  }
}

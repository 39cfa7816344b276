/** Public share links: a token that opens a quiz's leaderboard to anyone
    holding it, until its optional expiry. */
module Share {
  import opened Wrappers
  import opened Domain
  import opened Store
  import opened Scoring
  import Statistics

  /** The answer to a token request: the token, its link and its expiry. */
  datatype ShareTokenResponse = ShareTokenResponse(token: string, url: string, expiresAt: Option<Time>)

  /** The public leaderboard: the ranked teams, the quiz's name and date and
      the organization's colour when the organization exists. */
  datatype ShareLeaderboard = ShareLeaderboard(
    rankings: seq<Statistics.TeamRank>,
    quizName: string,
    quizDate: Time,
    primaryColor: Option<string>)

  const LeaderboardPath: string := "/api/share/leaderboard/"

  /** The link of a token. */
  function ShareUrl(token: string): (url: string)
    ensures |url| == |LeaderboardPath| + |token|
  {
    LeaderboardPath + token
  }

  /** The token a link carries, when it is a leaderboard link. */
  function TokenOfUrl(url: string): (token: Option<string>)
    ensures token.Some? ==> |token.value| == |url| - |LeaderboardPath|
  {
    if |url| >= |LeaderboardPath| && url[..|LeaderboardPath|] == LeaderboardPath
    then Some(url[|LeaderboardPath|..])
    else None
  }

  /** The link gives back its token, and different tokens get different
      links. */
  lemma UrlCarriesToken(token: string, other: string)
    ensures TokenOfUrl(ShareUrl(token)) == Some(token)
    ensures token != other ==> ShareUrl(token) != ShareUrl(other)
  {
    var url := ShareUrl(token);
    assert url[..|LeaderboardPath|] == LeaderboardPath;
    assert url[|LeaderboardPath|..] == token;
    if token != other {
      assert ShareUrl(other)[|LeaderboardPath|..] == other;
    }
  }

  // Creating a token.

  /** A share row for a token nobody holds keeps every index and invariant. */
  lemma ShareTokenKeeps(t: Tables, n: nat, s: PublicShareToken)
    requires Indexed(t) && Invariants(t, n)
    ensures Invariants(t.(shareTokens := t.shareTokens + [s]), n)
    ensures Indexed(t.(shareTokens := t.shareTokens + [s]))
        <==> forall k :: 0 <= k < |t.shareTokens| ==> t.shareTokens[k].token != s.token
  {
    var ts := t.shareTokens + [s];
    if !(forall k :: 0 <= k < |t.shareTokens| ==> t.shareTokens[k].token != s.token) {
      var k :| 0 <= k < |t.shareTokens| && t.shareTokens[k].token == s.token;
      assert ts[k].token == ts[|t.shareTokens|].token;
    }
  }

  /** `CreateTokenAsync(quizId, expiresAtUtc)`: for a visible quiz, stores a
      token row under the quiz's own organization and answers with the token
      and its link; an unknown quiz gives no answer. The random token is a
      parameter; one that collides with a stored token fails the save. */
  method CreateToken(db: Db, quizId: Id, expiresAt: Option<Time>, token: string)
    returns (r: Result<Option<ShareTokenResponse>, Error>)
    requires db.Valid()
    modifies db`tables
    ensures db.Valid()
    ensures FindQuiz(old(db.tables.quizzes), quizId).None? ==> r == Ok(None) && db.tables == old(db.tables)
    ensures FindQuiz(old(db.tables.quizzes), quizId).Some? ==>
      var q := FindQuiz(old(db.tables.quizzes), quizId).value;
      && (r.Ok? <==> forall k :: 0 <= k < |old(db.tables.shareTokens)| ==> old(db.tables.shareTokens)[k].token != token)
      && (r.Ok? ==>
            && r.value == Some(ShareTokenResponse(token, ShareUrl(token), expiresAt))
            && db.tables == old(db.tables).(shareTokens := old(db.tables.shareTokens)
                                              + [PublicShareToken(q.meta.orgId, quizId, token, expiresAt)]))
      && (r.Err? ==> r.error == DuplicateKey && db.tables == old(db.tables))
  {
    var quiz := FindQuiz(db.tables.quizzes, quizId);
    if quiz.None? {
      return Ok(None);
    }
    var row := PublicShareToken(quiz.value.meta.orgId, quizId, token, expiresAt);
    ShareTokenKeeps(db.tables, db.nextId, row);
    var saved := db.SaveChanges(db.tables.(shareTokens := db.tables.shareTokens + [row]));
    if saved.Fail? {
      return Err(saved.error);
    }
    r := Ok(Some(ShareTokenResponse(token, ShareUrl(token), expiresAt)));
  }

  // Reading a leaderboard.

  /** `PublicShareTokens.FirstOrDefault(t => t.Token == token)`. */
  function FindShareToken(ts: seq<PublicShareToken>, token: string): (r: Option<PublicShareToken>)
    ensures r.Some? ==> r.value in ts && r.value.token == token
    ensures r.None? <==> forall s :: s in ts ==> s.token != token
  {
    if ts == [] then None
    else if ts[0].token == token then Some(ts[0])
    else
      var r := FindShareToken(ts[1..], token);
      assert forall s :: s in ts ==> s == ts[0] || s in ts[1..];
      r
  }

  /** A token with an expiry before `now` no longer opens anything; one
      without an expiry never expires. */
  predicate Expired(s: PublicShareToken, now: Time) {
    s.expiresAt.Some? && s.expiresAt.value < now
  }

  /** The leaderboard rows (`ShareService.cs:47-48`): the quiz's ranking best
      first, numbered from 1, with each team's name whether or not the team
      was deleted. */
  function Leaderboard(t: Tables, orgId: Id, quizId: Id): seq<Statistics.TeamRank> {
    Statistics.TopTeams(t.teams, Descending(Statistics.RankingOf(t, orgId, quizId)))
  }

  /** `GetByTokenAsync(token)` at time `now`. */
  function GetByToken(t: Tables, token: string, now: Time): (r: Option<ShareLeaderboard>)
    ensures r.None? <==>
      || FindShareToken(t.shareTokens, token).None?
      || Expired(FindShareToken(t.shareTokens, token).value, now)
      || FindQuiz(t.quizzes, FindShareToken(t.shareTokens, token).value.quizId).None?
    ensures r.Some? ==>
      var s := FindShareToken(t.shareTokens, token).value;
      var q := FindQuiz(t.quizzes, s.quizId).value;
      && r.value.quizName == q.name && r.value.quizDate == q.date
      && r.value.rankings == Leaderboard(t, s.orgId, s.quizId)
      && (r.value.primaryColor.Some? <==> FindOrganization(t.organizations, s.orgId).Some?)
  {
    match FindShareToken(t.shareTokens, token)
    case None => None
    case Some(s) =>
      if Expired(s, now) then None
      else
        match FindQuiz(t.quizzes, s.quizId)
        case None => None
        case Some(q) =>
          var org := FindOrganization(t.organizations, s.orgId);
          var color := if org.Some? then Some(t.organizations[org.value].primaryColor) else None;
          Some(ShareLeaderboard(Leaderboard(t, s.orgId, s.quizId), q.name, q.date, color))
  }

  /** The rows are in non-increasing order of points and numbered from 1;
      each row carries its team's value in the quiz's ranking, and every
      ranked team appears exactly once. */
  lemma LeaderboardRanked(t: Tables, orgId: Id, quizId: Id)
    ensures var ranking := Statistics.RankingOf(t, orgId, quizId);
      var rows := Leaderboard(t, orgId, quizId);
      && |rows| == |ranking|
      && (forall i, j :: 0 <= i < j < |rows| ==> rows[i].points >= rows[j].points)
      && (forall i :: 0 <= i < |rows| ==> rows[i].rank == i + 1)
      && (forall i, j :: 0 <= i < j < |rows| ==> rows[i].teamId != rows[j].teamId)
      && (forall i :: 0 <= i < |rows| ==> Lookup(ranking, rows[i].teamId) == Some(rows[i].points))
      && (forall x :: x in ranking ==> exists i :: 0 <= i < |rows| && rows[i].teamId == x.teamId && rows[i].points == x.points)
  {
    var ranking := Statistics.RankingOf(t, orgId, quizId);
    RowsOrdered(t.teams, ranking);
    RowsCarryRanking(t.teams, ranking);
  }

  /** Numbering a reordered ranking: as many rows as standings, best first,
      numbered from 1, one row per team. */
  lemma RowsOrdered(teams: seq<Team>, ranking: seq<Standing>)
    requires DistinctTeams(ranking)
    ensures var rows := Statistics.TopTeams(teams, Descending(ranking));
      && |rows| == |ranking|
      && (forall i, j :: 0 <= i < j < |rows| ==> rows[i].points >= rows[j].points)
      && (forall i :: 0 <= i < |rows| ==> rows[i].rank == i + 1)
      && (forall i, j :: 0 <= i < j < |rows| ==> rows[i].teamId != rows[j].teamId)
  {
    var ordered := Descending(ranking);
    assert |ordered| == |ranking| by {
      assert |multiset(ordered)| == |multiset(ranking)|;
    }
    PermutationDistinct(ranking, ordered);
  }

  /** Each row of a reordered ranking shows a standing of the ranking, and
      every standing has its row. */
  lemma RowsCarryRanking(teams: seq<Team>, ranking: seq<Standing>)
    requires DistinctTeams(ranking)
    ensures var rows := Statistics.TopTeams(teams, Descending(ranking));
      && (forall i :: 0 <= i < |rows| ==> Lookup(ranking, rows[i].teamId) == Some(rows[i].points))
      && (forall x :: x in ranking ==> exists i :: 0 <= i < |rows| && rows[i].teamId == x.teamId && rows[i].points == x.points)
  {
    var ordered := Descending(ranking);
    var rows := Statistics.TopTeams(teams, ordered);
    forall i | 0 <= i < |rows| ensures Lookup(ranking, rows[i].teamId) == Some(rows[i].points) {
      assert ordered[i] in multiset(ranking);
      LookupIffIn(ranking, ordered[i].teamId, ordered[i].points);
    }
    forall x | x in ranking
      ensures exists i :: 0 <= i < |rows| && rows[i].teamId == x.teamId && rows[i].points == x.points
    {
      assert x in multiset(ordered);
      var i :| 0 <= i < |ordered| && ordered[i] == x;
      assert rows[i].teamId == x.teamId;
    }
  }

  /** In a ranking, whose teams are distinct, each standing occurs once. */
  lemma {:induction false} MultiplicityOne(r: seq<Standing>, k: nat)
    requires DistinctTeams(r) && k < |r|
    ensures multiset(r)[r[k]] == 1
  {
    var last := |r| - 1;
    var init := r[..last];
    assert r == init + [r[last]];
    if k == last {
      assert forall j :: 0 <= j < |init| ==> init[j].teamId != r[k].teamId;
      assert r[k] !in init;
    } else {
      assert DistinctTeams(init);
      MultiplicityOne(init, k);
      assert r[last] != r[k];
    }
  }

  /** Reordering a ranking keeps its teams distinct. */
  lemma PermutationDistinct(a: seq<Standing>, b: seq<Standing>)
    requires DistinctTeams(a) && multiset(a) == multiset(b)
    ensures DistinctTeams(b)
  {
    forall i, j | 0 <= i < j < |b| ensures b[i].teamId != b[j].teamId {
      if b[i].teamId == b[j].teamId {
        assert b[i] in multiset(a) && b[j] in multiset(a);
        LookupIffIn(a, b[i].teamId, b[i].points);
        LookupIffIn(a, b[j].teamId, b[j].points);
        assert b[i] == b[j];
        assert multiset(b)[b[i]] >= 2 by {
          assert b == b[..i] + [b[i]] + b[i + 1..j] + [b[j]] + b[j + 1..];
        }
        var k :| 0 <= k < |a| && a[k] == b[i];
        MultiplicityOne(a, k);
        assert false;
      }
    }
  }

  /** A token without an expiry opens the same leaderboard at every time. */
  lemma NoExpiryNeverExpires(t: Tables, token: string, now: Time, later: Time)
    requires FindShareToken(t.shareTokens, token).Some?
    requires FindShareToken(t.shareTokens, token).value.expiresAt.None?
    ensures GetByToken(t, token, now) == GetByToken(t, token, later)
  {
  }

  /** Expiry is one-way: a token that opens the leaderboard at some time
      opened the same leaderboard at every earlier time, and one refused for
      its expiry stays refused at every later time. */
  lemma ExpiryIsMonotone(t: Tables, token: string, earlier: Time, now: Time)
    requires earlier <= now
    ensures GetByToken(t, token, now).Some? ==> GetByToken(t, token, earlier) == GetByToken(t, token, now)
    ensures FindShareToken(t.shareTokens, token).Some? && Expired(FindShareToken(t.shareTokens, token).value, earlier)
      ==> GetByToken(t, token, now).None?
  {
  }

  /** A token just created opens its quiz's leaderboard until its expiry,
      under the quiz's own organization. */
  lemma CreatedTokenOpens(t: Tables, quizId: Id, expiresAt: Option<Time>, token: string, now: Time)
    requires FindQuiz(t.quizzes, quizId).Some?
    requires forall k :: 0 <= k < |t.shareTokens| ==> t.shareTokens[k].token != token
    requires expiresAt.None? || now <= expiresAt.value
    ensures var q := FindQuiz(t.quizzes, quizId).value;
      var t' := t.(shareTokens := t.shareTokens + [PublicShareToken(q.meta.orgId, quizId, token, expiresAt)]);
      && GetByToken(t', token, now).Some?
      && GetByToken(t', token, now).value.quizName == q.name
      && GetByToken(t', token, now).value.rankings == Leaderboard(t, q.meta.orgId, quizId)
  {
    var q := FindQuiz(t.quizzes, quizId).value;
    var s := PublicShareToken(q.meta.orgId, quizId, token, expiresAt);
    var ts := t.shareTokens + [s];
    FindShareTokenAppend(t.shareTokens, s);
    var t' := t.(shareTokens := ts);
    assert Statistics.RankingOf(t', q.meta.orgId, quizId) == Statistics.RankingOf(t, q.meta.orgId, quizId);
  }

  /** Looking up the token of a row appended last, which no earlier row holds,
      finds that row. */
  lemma {:induction false} FindShareTokenAppend(ts: seq<PublicShareToken>, s: PublicShareToken)
    requires forall k :: 0 <= k < |ts| ==> ts[k].token != s.token
    ensures FindShareToken(ts + [s], s.token) == Some(s)
  {
    if ts != [] {
      assert (ts + [s])[1..] == ts[1..] + [s];
      FindShareTokenAppend(ts[1..], s);
    }
  }
}

/** The quiz endpoints that shape a score sheet: creating a quiz with its
    teams × categories grid of empty entries, updating one entry until it is
    locked, recording a help played by a team, and the ordered ranking. */
module Quizzes {
  import opened Wrappers
  import opened Domain
  import opened Store
  import Authorization
  import Subscription
  import Scoring

  predicate Distinct(ids: seq<Id>) {
    forall i, j :: 0 <= i < j < |ids| ==> ids[i] != ids[j]
  }

  // Creating a quiz.

  /** The quiz `Create` constructs: a fresh id, the request's fields, Draft. */
  function NewQuiz(id: Id, orgId: Id, name: string, date: Time, location: string, leagueId: Option<Id>, now: Time): (q: Quiz)
    ensures q.status == Draft && !q.meta.isDeleted && q.meta.createdAt == now
  {
    Quiz(id, NewTenant(orgId, now), name, date, location, Draft, leagueId)
  }

  /** One quiz-team link per requested team, in request order. */
  function Links(orgId: Id, quizId: Id, teamIds: seq<Id>, now: Time): (r: seq<QuizTeam>)
    ensures |r| == |teamIds|
    ensures forall i :: 0 <= i < |r| ==> r[i] == QuizTeam(NewTenant(orgId, now), quizId, teamIds[i], None)
  {
    if teamIds == [] then []
    else
      var last := QuizTeam(NewTenant(orgId, now), quizId, teamIds[|teamIds| - 1], None);
      Links(orgId, quizId, teamIds[..|teamIds| - 1], now) + [last]
  }

  /** The entries of one team, one per category, in request order. */
  function Row(orgId: Id, quizId: Id, teamId: Id, categoryIds: seq<Id>, now: Time): seq<ScoreEntry> {
    if categoryIds == [] then []
    else
      var last := NewScoreEntry(orgId, quizId, teamId, categoryIds[|categoryIds| - 1], now);
      Row(orgId, quizId, teamId, categoryIds[..|categoryIds| - 1], now) + [last]
  }

  /** The entries of the nested loop: the rows of every team, team by team. */
  function CrossProduct(orgId: Id, quizId: Id, teamIds: seq<Id>, categoryIds: seq<Id>, now: Time): seq<ScoreEntry> {
    if teamIds == [] then []
    else
      var last := Row(orgId, quizId, teamIds[|teamIds| - 1], categoryIds, now);
      CrossProduct(orgId, quizId, teamIds[..|teamIds| - 1], categoryIds, now) + last
  }

  /** The nested `foreach` of `Create`. */
  method StageRows(orgId: Id, quizId: Id, teamIds: seq<Id>, categoryIds: seq<Id>, now: Time)
    returns (links: seq<QuizTeam>, entries: seq<ScoreEntry>)
    ensures links == Links(orgId, quizId, teamIds, now)
    ensures entries == CrossProduct(orgId, quizId, teamIds, categoryIds, now)
  {
    links, entries := [], [];
    var i := 0;
    while i < |teamIds|
      invariant 0 <= i <= |teamIds|
      invariant links == Links(orgId, quizId, teamIds[..i], now)
      invariant entries == CrossProduct(orgId, quizId, teamIds[..i], categoryIds, now)
    {
      var teamId := teamIds[i];
      links := links + [QuizTeam(NewTenant(orgId, now), quizId, teamId, None)];
      ghost var done := entries;
      var j := 0;
      while j < |categoryIds|
        invariant 0 <= j <= |categoryIds|
        invariant entries == done + Row(orgId, quizId, teamId, categoryIds[..j], now)
      {
        entries := entries + [NewScoreEntry(orgId, quizId, teamId, categoryIds[j], now)];
        assert categoryIds[..j + 1][..j] == categoryIds[..j];
        j := j + 1;
      }
      assert categoryIds[..j] == categoryIds;
      assert teamIds[..i + 1][..i] == teamIds[..i];
      i := i + 1;
    }
    assert teamIds[..i] == teamIds;
  }

  lemma {:induction false} RowMembers(orgId: Id, quizId: Id, teamId: Id, categoryIds: seq<Id>, now: Time, e: ScoreEntry)
    ensures e in Row(orgId, quizId, teamId, categoryIds, now) <==>
      e.teamId == teamId && e.categoryId in categoryIds && e == NewScoreEntry(orgId, quizId, teamId, e.categoryId, now)
  {
    if categoryIds != [] {
      var init := categoryIds[..|categoryIds| - 1];
      RowMembers(orgId, quizId, teamId, init, now, e);
      assert categoryIds == init + [categoryIds[|categoryIds| - 1]];
    }
  }

  /** The grid has |teams| × |categories| entries. */
  lemma {:induction false} CrossProductSize(orgId: Id, quizId: Id, teamIds: seq<Id>, categoryIds: seq<Id>, now: Time)
    ensures |CrossProduct(orgId, quizId, teamIds, categoryIds, now)| == |teamIds| * |categoryIds|
  {
    if teamIds != [] {
      var init := teamIds[..|teamIds| - 1];
      CrossProductSize(orgId, quizId, init, categoryIds, now);
      RowSize(orgId, quizId, teamIds[|teamIds| - 1], categoryIds, now);
      calc {
        |teamIds| * |categoryIds|;
        (|init| + 1) * |categoryIds|;
        |init| * |categoryIds| + |categoryIds|;
      }
    }
  }

  lemma {:induction false} RowSize(orgId: Id, quizId: Id, teamId: Id, categoryIds: seq<Id>, now: Time)
    ensures |Row(orgId, quizId, teamId, categoryIds, now)| == |categoryIds|
  {
    if categoryIds != [] {
      RowSize(orgId, quizId, teamId, categoryIds[..|categoryIds| - 1], now);
    }
  }

  /** The grid holds exactly the zeroed, unlocked entries of the requested
      (team, category) pairs. */
  lemma {:induction false} CrossProductMembers(
    orgId: Id, quizId: Id, teamIds: seq<Id>, categoryIds: seq<Id>, now: Time, e: ScoreEntry)
    ensures e in CrossProduct(orgId, quizId, teamIds, categoryIds, now) <==>
      && e.teamId in teamIds && e.categoryId in categoryIds
      && e == NewScoreEntry(orgId, quizId, e.teamId, e.categoryId, now)
  {
    if teamIds != [] {
      var init := teamIds[..|teamIds| - 1];
      var last := teamIds[|teamIds| - 1];
      CrossProductMembers(orgId, quizId, init, categoryIds, now, e);
      RowMembers(orgId, quizId, last, categoryIds, now, e);
      assert teamIds == init + [last];
      assert e.teamId in teamIds <==> e.teamId in init || e.teamId == last;
    }
  }

  /** Every new entry starts unlocked with zero points and bonus. */
  lemma CrossProductZeroed(orgId: Id, quizId: Id, teamIds: seq<Id>, categoryIds: seq<Id>, now: Time, e: ScoreEntry)
    requires e in CrossProduct(orgId, quizId, teamIds, categoryIds, now)
    ensures e.points == 0 && e.bonusPoints == 0 && !e.isLocked && !e.meta.isDeleted
    ensures e.quizId == quizId && e.meta.orgId == orgId
  {
    CrossProductMembers(orgId, quizId, teamIds, categoryIds, now, e);
  }

  lemma UniqueEntriesConcat(a: seq<ScoreEntry>, b: seq<ScoreEntry>)
    requires UniqueEntries(a) && UniqueEntries(b)
    requires forall x, y :: x in a && y in b ==> EntryKey(x) != EntryKey(y)
    ensures UniqueEntries(a + b)
  {
    var ab := a + b;
    forall i, j | 0 <= i < j < |ab| ensures EntryKey(ab[i]) != EntryKey(ab[j]) {
      if j < |a| {
        assert ab[i] == a[i] && ab[j] == a[j];
      } else if |a| <= i {
        assert ab[i] == b[i - |a|] && ab[j] == b[j - |a|];
      } else {
        assert ab[i] in a && ab[j] in b;
      }
    }
  }

  lemma {:induction false} RowUnique(orgId: Id, quizId: Id, teamId: Id, categoryIds: seq<Id>, now: Time)
    requires Distinct(categoryIds)
    ensures UniqueEntries(Row(orgId, quizId, teamId, categoryIds, now))
  {
    if categoryIds != [] {
      var init := categoryIds[..|categoryIds| - 1];
      var last := categoryIds[|categoryIds| - 1];
      RowUnique(orgId, quizId, teamId, init, now);
      var e := NewScoreEntry(orgId, quizId, teamId, last, now);
      forall x | x in Row(orgId, quizId, teamId, init, now) ensures EntryKey(x) != EntryKey(e) {
        RowMembers(orgId, quizId, teamId, init, now, x);
      }
      UniqueEntriesConcat(Row(orgId, quizId, teamId, init, now), [e]);
    }
  }

  /** Distinct team ids and distinct category ids give distinct entry keys. */
  lemma {:induction false} CrossProductUnique(orgId: Id, quizId: Id, teamIds: seq<Id>, categoryIds: seq<Id>, now: Time)
    requires Distinct(teamIds) && Distinct(categoryIds)
    ensures UniqueEntries(CrossProduct(orgId, quizId, teamIds, categoryIds, now))
  {
    if teamIds != [] {
      var init := teamIds[..|teamIds| - 1];
      var last := teamIds[|teamIds| - 1];
      CrossProductUnique(orgId, quizId, init, categoryIds, now);
      RowUnique(orgId, quizId, last, categoryIds, now);
      forall x, y | x in CrossProduct(orgId, quizId, init, categoryIds, now) && y in Row(orgId, quizId, last, categoryIds, now)
        ensures EntryKey(x) != EntryKey(y)
      {
        CrossProductMembers(orgId, quizId, init, categoryIds, now, x);
        RowMembers(orgId, quizId, last, categoryIds, now, y);
      }
      UniqueEntriesConcat(CrossProduct(orgId, quizId, init, categoryIds, now), Row(orgId, quizId, last, categoryIds, now));
    }
  }

  /** The tables `Create` hands to `SaveChanges`. */
  function CreateStaged(t: Tables, q: Quiz, teamIds: seq<Id>, categoryIds: seq<Id>, now: Time): Tables {
    t.(quizzes := t.quizzes + [q],
       quizTeams := t.quizTeams + Links(q.meta.orgId, q.id, teamIds, now),
       scoreEntries := t.scoreEntries + CrossProduct(q.meta.orgId, q.id, teamIds, categoryIds, now))
  }

  /** A quiz with a fresh id and distinct team and category ids never clashes
      with a unique index, so its creation is saved. */
  lemma CreateStagedIndexed(t: Tables, n: nat, q: Quiz, teamIds: seq<Id>, categoryIds: seq<Id>, now: Time)
    requires Indexed(t) && IdsBelow(t, n) && q.id >= n
    requires Distinct(teamIds) && Distinct(categoryIds)
    ensures Indexed(CreateStaged(t, q, teamIds, categoryIds, now))
  {
    var grid := CrossProduct(q.meta.orgId, q.id, teamIds, categoryIds, now);
    CrossProductUnique(q.meta.orgId, q.id, teamIds, categoryIds, now);
    forall x, y | x in t.scoreEntries && y in grid ensures EntryKey(x) != EntryKey(y) {
      CrossProductZeroed(q.meta.orgId, q.id, teamIds, categoryIds, now, y);
    }
    UniqueEntriesConcat(t.scoreEntries, grid);
  }

  lemma CreateStagedKeeps(t: Tables, n: nat, q: Quiz, teamIds: seq<Id>, categoryIds: seq<Id>, now: Time)
    requires Invariants(t, n) && q.id < n
    ensures Invariants(CreateStaged(t, q, teamIds, categoryIds, now), n)
  {
    forall e | e in CrossProduct(q.meta.orgId, q.id, teamIds, categoryIds, now) ensures e.quizId < n {
      CrossProductZeroed(q.meta.orgId, q.id, teamIds, categoryIds, now, e);
    }
  }

  /** `Create(request)`: the monthly quiz limit first, then the quiz, one link
      per team and the grid of entries, saved together. */
  method Create(
    db: Db, ctx: RequestContext, name: string, date: Time, location: string, leagueId: Option<Id>,
    teamIds: seq<Id>, categoryIds: seq<Id>, now: Time, startOfMonth: Time)
    returns (r: Result<(string, Quiz), Error>)
    requires db.Valid()
    modifies db`tables, db`nextId
    ensures db.Valid()
    ensures var gate := Subscription.EnforceQuizMonthlyLimit(old(db.tables), ctx, now, startOfMonth);
      gate.Fail? ==> r == Err(gate.error) && db.tables == old(db.tables)
    ensures var gate := Subscription.EnforceQuizMonthlyLimit(old(db.tables), ctx, now, startOfMonth);
      gate.Pass? ==>
        var q := NewQuiz(old(db.nextId), ctx.orgId, name, date, location, leagueId, now);
        var staged := CreateStaged(old(db.tables), q, teamIds, categoryIds, now);
        && (Indexed(staged) ==> r == Ok((Authorization.T(ctx.language, "QuizCreated"), q)) && db.tables == staged)
        && (!Indexed(staged) ==> r == Err(DuplicateKey) && db.tables == old(db.tables))
    ensures (&& Subscription.EnforceQuizMonthlyLimit(old(db.tables), ctx, now, startOfMonth).Pass?
             && Distinct(teamIds) && Distinct(categoryIds)) ==> r.Ok?
  {
    var gate := Subscription.EnforceQuizMonthlyLimit(db.tables, ctx, now, startOfMonth);
    if gate.Fail? {
      return Err(gate.error);
    }
    ghost var before := db.tables;
    var quizId := db.NewId();
    var q := NewQuiz(quizId, ctx.orgId, name, date, location, leagueId, now);
    var links, entries := StageRows(ctx.orgId, quizId, teamIds, categoryIds, now);
    var staged := db.tables.(quizzes := db.tables.quizzes + [q],
                             quizTeams := db.tables.quizTeams + links,
                             scoreEntries := db.tables.scoreEntries + entries);
    assert staged == CreateStaged(before, q, teamIds, categoryIds, now);
    InvariantsMonotone(before, quizId, db.nextId);
    CreateStagedKeeps(before, db.nextId, q, teamIds, categoryIds, now);
    if Distinct(teamIds) && Distinct(categoryIds) {
      CreateStagedIndexed(before, quizId, q, teamIds, categoryIds, now);
    }
    var saved := db.SaveChanges(staged);
    if saved.Fail? {
      return Err(saved.error);
    }
    r := Ok((Authorization.T(ctx.language, "QuizCreated"), q));
  }

  // Updating a score.

  /** The body of an `UpdateScoreRequest`. */
  datatype ScoreRequest = ScoreRequest(
    quizId: Id, teamId: Id, categoryId: Id, points: Int32, bonusPoints: Int32, notes: string, isLocked: bool)

  /** The entry `FirstOrDefault` finds: visible, of the organization, with the
      request's quiz, team and category. */
  function FindEntry(entries: seq<ScoreEntry>, orgId: Id, quizId: Id, teamId: Id, categoryId: Id): (r: Option<nat>)
    ensures r.Some? ==>
      r.value < |entries| && !entries[r.value].meta.isDeleted
      && EntryKey(entries[r.value]) == (orgId, quizId, teamId, categoryId)
    ensures r.None? <==> forall e :: e in entries ==> e.meta.isDeleted || EntryKey(e) != (orgId, quizId, teamId, categoryId)
  {
    if entries == [] then None
    else if !entries[0].meta.isDeleted && EntryKey(entries[0]) == (orgId, quizId, teamId, categoryId) then Some(0)
    else
      var r := FindEntry(entries[1..], orgId, quizId, teamId, categoryId);
      assert forall e :: e in entries ==> e == entries[0] || e in entries[1..];
      if r.Some? then Some(r.value + 1) else None
  }

  /** The request assigns the entry the values it already has. */
  predicate SameValues(e: ScoreEntry, req: ScoreRequest) {
    e.points == req.points && e.bonusPoints == req.bonusPoints && e.notes == req.notes && e.isLocked == req.isLocked
  }

  /** The state the change tracker gives the entry after the assignments: the
      snapshot comparison finds it modified only when a value differs. */
  function AssignedState(e: ScoreEntry, req: ScoreRequest): EntityState {
    if SameValues(e, req) then Unchanged else Modified
  }

  /** The entry after the four assignments and the stamp `SaveChanges` gives
      it: a request that changes nothing leaves the entry exactly as it was,
      and any other gets `UpdatedAtUtc = now`. */
  function Updated(e: ScoreEntry, req: ScoreRequest, now: Time): (u: ScoreEntry)
    ensures EntryKey(u) == EntryKey(e) && u.meta.isDeleted == e.meta.isDeleted
    ensures u.points == req.points && u.bonusPoints == req.bonusPoints && u.notes == req.notes && u.isLocked == req.isLocked
    ensures u.meta == Stamp(AssignedState(e, req), e.meta, now)
    ensures SameValues(e, req) ==> u == e
    ensures !SameValues(e, req) ==> u.meta.updatedAt == now
  {
    e.(points := req.points, bonusPoints := req.bonusPoints, notes := req.notes, isLocked := req.isLocked,
       meta := Stamp(AssignedState(e, req), e.meta, now))
  }

  /** What `UpsertScore` decides: the position of the entry and its new value,
      or the response that refuses the request. */
  function UpsertDecision(entries: seq<ScoreEntry>, orgId: Id, req: ScoreRequest, now: Time): (r: Result<(nat, ScoreEntry), Error>)
    ensures r.Ok? ==>
      r.value.0 < |entries| && !entries[r.value.0].isLocked
      && r.value.1 == Updated(entries[r.value.0], req, now)
    ensures FindEntry(entries, orgId, req.quizId, req.teamId, req.categoryId).None? <==> r == Err(NotFound)
    ensures var i := FindEntry(entries, orgId, req.quizId, req.teamId, req.categoryId);
      i.Some? && entries[i.value].isLocked <==> r == Err(BadRequest("Category score is locked."))
  {
    var i := FindEntry(entries, orgId, req.quizId, req.teamId, req.categoryId);
    if i.None? then Err(NotFound)
    else if entries[i.value].isLocked then Err(BadRequest("Category score is locked."))
    else Ok((i.value, Updated(entries[i.value], req, now)))
  }

  /** The entries after one request: unchanged when it is refused. */
  function Upserted(entries: seq<ScoreEntry>, orgId: Id, req: ScoreRequest, now: Time): (r: seq<ScoreEntry>)
    ensures |r| == |entries|
  {
    var d := UpsertDecision(entries, orgId, req, now);
    if d.Err? then entries else entries[d.value.0 := d.value.1]
  }

  /** A request touches at most the one entry it names, and never a locked
      one: every locked entry, and every entry of another key, is left as it
      was. */
  lemma UpsertTouchesOneUnlocked(entries: seq<ScoreEntry>, orgId: Id, req: ScoreRequest, now: Time, k: nat)
    requires k < |entries|
    requires entries[k].isLocked || entries[k].meta.isDeleted
          || EntryKey(entries[k]) != (orgId, req.quizId, req.teamId, req.categoryId)
    ensures Upserted(entries, orgId, req, now)[k] == entries[k]
  {
  }

  /** A lock is permanent: after any series of score requests, an entry that
      was locked is still there, unchanged. */
  function Session(entries: seq<ScoreEntry>, orgId: Id, reqs: seq<ScoreRequest>, now: Time): (r: seq<ScoreEntry>)
    ensures |r| == |entries|
  {
    if reqs == [] then entries
    else Upserted(Session(entries, orgId, reqs[..|reqs| - 1], now), orgId, reqs[|reqs| - 1], now)
  }

  lemma {:induction false} LockIsPermanent(entries: seq<ScoreEntry>, orgId: Id, reqs: seq<ScoreRequest>, now: Time, k: nat)
    requires k < |entries| && entries[k].isLocked
    ensures Session(entries, orgId, reqs, now)[k] == entries[k]
  {
    if reqs != [] {
      var init := reqs[..|reqs| - 1];
      LockIsPermanent(entries, orgId, init, now, k);
      UpsertTouchesOneUnlocked(Session(entries, orgId, init, now), orgId, reqs[|reqs| - 1], now, k);
    }
  }

  /** Replacing an entry by one with the same key keeps every unique index. */
  lemma UniqueEntriesReplace(es: seq<ScoreEntry>, i: nat, e: ScoreEntry)
    requires i < |es| && UniqueEntries(es) && EntryKey(e) == EntryKey(es[i])
    ensures UniqueEntries(es[i := e])
  {
    var after := es[i := e];
    forall a, b | 0 <= a < b < |after| ensures EntryKey(after[a]) != EntryKey(after[b]) {
      assert EntryKey(after[a]) == EntryKey(es[a]) && EntryKey(after[b]) == EntryKey(es[b]);
    }
  }

  /** `UpsertScore(quizId, request)`. */
  method UpsertScore(db: Db, ctx: RequestContext, req: ScoreRequest, now: Time) returns (r: Result<ScoreEntry, Error>)
    requires db.Valid()
    modifies db`tables
    ensures db.Valid()
    ensures var d := UpsertDecision(old(db.tables.scoreEntries), ctx.orgId, req, now);
      && (d.Err? ==> r == Err(d.error) && db.tables == old(db.tables))
      && (d.Ok? ==>
            && r == Ok(d.value.1)
            && db.tables == old(db.tables).(scoreEntries := old(db.tables.scoreEntries)[d.value.0 := d.value.1]))
  {
    var d := UpsertDecision(db.tables.scoreEntries, ctx.orgId, req, now);
    if d.Err? {
      return Err(d.error);
    }
    var (i, e) := d.value;
    UniqueEntriesReplace(db.tables.scoreEntries, i, e);
    var es := db.tables.scoreEntries[i := e];
    assert forall x :: x in es ==> x == e || x in db.tables.scoreEntries;
    var staged := db.tables.(scoreEntries := es);
    assert Indexed(staged);
    var saved := db.SaveChanges(staged);
    r := Ok(e);
  }

  // Recording a help.

  /** The `AnyAsync` of `ApplyHelp`: a visible usage with the same key. */
  predicate HelpUsed(usages: seq<HelpUsage>, orgId: Id, quizId: Id, teamId: Id, helpTypeId: Id) {
    exists u :: u in usages && !u.meta.isDeleted && UsageKey(u) == (orgId, quizId, teamId, helpTypeId)
  }

  /** The usage `ApplyHelp` adds. */
  function NewUsage(orgId: Id, quizId: Id, teamId: Id, helpTypeId: Id, now: Time): HelpUsage {
    HelpUsage(NewTenant(orgId, now), quizId, teamId, helpTypeId)
  }

  /** `ApplyHelp(quizId, request)`: refuses a help the team already played in
      the quiz; otherwise adds exactly one usage. A soft-deleted usage with the
      same key passes the check but still holds the unique index. */
  method ApplyHelp(db: Db, ctx: RequestContext, quizId: Id, teamId: Id, helpTypeId: Id, now: Time)
    returns (r: Outcome<Error>)
    requires db.Valid()
    modifies db`tables
    ensures db.Valid()
    ensures HelpUsed(old(db.tables.helpUsages), ctx.orgId, quizId, teamId, helpTypeId) ==>
      r == Fail(BadRequest("Help already used for this team in this quiz.")) && db.tables == old(db.tables)
    ensures !HelpUsed(old(db.tables.helpUsages), ctx.orgId, quizId, teamId, helpTypeId) ==>
      var added := old(db.tables).(helpUsages := old(db.tables.helpUsages) + [NewUsage(ctx.orgId, quizId, teamId, helpTypeId, now)]);
      && (r.Pass? <==> forall u :: u in old(db.tables.helpUsages) ==> UsageKey(u) != (ctx.orgId, quizId, teamId, helpTypeId))
      && db.tables == (if r.Pass? then added else old(db.tables))
      && (r.Fail? ==> r.error == DuplicateKey)
  {
    var used := HelpUsedIn(db.tables.helpUsages, ctx.orgId, quizId, teamId, helpTypeId);
    if used {
      return Fail(BadRequest("Help already used for this team in this quiz."));
    }
    var u := NewUsage(ctx.orgId, quizId, teamId, helpTypeId, now);
    var staged := db.tables.(helpUsages := db.tables.helpUsages + [u]);
    UsageAppendIndexed(db.tables.helpUsages, u);
    r := db.SaveChanges(staged);
  }

  /** The `AnyAsync` query, scanning the table. */
  method HelpUsedIn(usages: seq<HelpUsage>, orgId: Id, quizId: Id, teamId: Id, helpTypeId: Id) returns (found: bool)
    ensures found <==> HelpUsed(usages, orgId, quizId, teamId, helpTypeId)
  {
    found := false;
    var i := 0;
    while i < |usages| && !found
      invariant 0 <= i <= |usages|
      invariant found <==> HelpUsed(usages[..i], orgId, quizId, teamId, helpTypeId)
    {
      found := !usages[i].meta.isDeleted && UsageKey(usages[i]) == (orgId, quizId, teamId, helpTypeId);
      assert usages[..i + 1] == usages[..i] + [usages[i]];
      i := i + 1;
    }
    if found {
      assert forall u :: u in usages[..i] ==> u in usages;
    } else {
      assert usages[..i] == usages;
    }
  }

  /** Appending a usage keeps the unique index exactly when no row, deleted
      or not, already has its key. */
  lemma UsageAppendIndexed(us: seq<HelpUsage>, u: HelpUsage)
    requires UniqueUsages(us)
    ensures UniqueUsages(us + [u]) <==> forall x :: x in us ==> UsageKey(x) != UsageKey(u)
  {
    var after := us + [u];
    if forall x :: x in us ==> UsageKey(x) != UsageKey(u) {
      forall i, j | 0 <= i < j < |after| ensures UsageKey(after[i]) != UsageKey(after[j]) {
        if j < |us| {
          assert after[i] == us[i] && after[j] == us[j];
        } else {
          assert after[i] in us;
        }
      }
    } else {
      var x :| x in us && UsageKey(x) == UsageKey(u);
      var i :| 0 <= i < |us| && us[i] == x;
      assert after[i] == x && after[|us|] == u;
    }
  }

  /** A help once recorded cannot be recorded again: after a successful
      `ApplyHelp`, the same request is refused. */
  lemma HelpOncePerTeam(usages: seq<HelpUsage>, orgId: Id, quizId: Id, teamId: Id, helpTypeId: Id, now: Time)
    ensures HelpUsed(usages + [NewUsage(orgId, quizId, teamId, helpTypeId, now)], orgId, quizId, teamId, helpTypeId)
  {
    var u := NewUsage(orgId, quizId, teamId, helpTypeId, now);
    assert (usages + [u])[|usages|] == u;
  }

  // The ordered ranking.

  /** `Ranking(quizId)`: the ranking of the caller's organization, highest
      value first, numbered from 1. */
  function Ranking(t: Tables, ctx: RequestContext, quizId: Id): (rows: seq<Scoring.RankRow>)
    ensures var ranking := Scoring.ComputeRanking(t.scoreEntries, t.helpUsages, t.helpTypes, ctx.orgId, quizId);
      && |rows| == |ranking|
      && (forall i :: 0 <= i < |rows| ==> rows[i].rank == i + 1)
      && (forall i, j :: 0 <= i < j < |rows| ==> rows[i].points >= rows[j].points)
      && (forall teamId, points ::
            Scoring.Lookup(ranking, teamId) == Some(points) <==> InRows(rows, teamId, points))
  {
    var ranking := Scoring.ComputeRanking(t.scoreEntries, t.helpUsages, t.helpTypes, ctx.orgId, quizId);
    var rows := Scoring.RankRows(Scoring.Descending(ranking));
    forall teamId, points
      ensures Scoring.Lookup(ranking, teamId) == Some(points) <==> InRows(rows, teamId, points)
    {
      OrderedRowAgrees(ranking, teamId, points);
    }
    OrderedLength(ranking);
    rows
  }

  lemma OrderedLength(ranking: seq<Scoring.Standing>)
    ensures |Scoring.Descending(ranking)| == |ranking|
  {
    var o := Scoring.Descending(ranking);
    assert |multiset(o)| == |multiset(ranking)|;
  }

  /** The numbered rows show a (team, value) pair exactly when the ranking
      maps the team to that value. */
  lemma OrderedRowAgrees(ranking: seq<Scoring.Standing>, teamId: Id, points: int)
    requires forall i, j :: 0 <= i < j < |ranking| ==> ranking[i].teamId != ranking[j].teamId
    ensures Scoring.Lookup(ranking, teamId) == Some(points) <==> InRows(Scoring.RankRows(Scoring.Descending(ranking)), teamId, points)
  {
    var o := Scoring.Descending(ranking);
    var rows := Scoring.RankRows(o);
    Scoring.LookupIffIn(ranking, teamId, points);
    var s := Scoring.Standing(teamId, points);
    assert s in ranking <==> s in multiset(ranking);
    assert s in o <==> s in multiset(o);
    if s in o {
      var i :| 0 <= i < |o| && o[i] == s;
      assert rows[i].teamId == teamId && rows[i].points == points;
    }
    if InRows(rows, teamId, points) {
      var i :| 0 <= i < |rows| && rows[i].teamId == teamId && rows[i].points == points;
      assert o[i] == s;
    }
  }

  /** Some row of the response shows `teamId` with `points`. */
  predicate InRows(rows: seq<Scoring.RankRow>, teamId: Id, points: int) {
    exists i :: 0 <= i < |rows| && rows[i].teamId == teamId && rows[i].points == points
  }
}

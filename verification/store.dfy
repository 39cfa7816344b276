/** The database context: one table per entity set, the unique indexes the
    model configures, the soft-delete query filters, and `SaveChanges`.

    A `Db` holds every table as a sequence of rows in insertion order, and a
    counter that issues fresh identifiers where the source calls
    `Guid.NewGuid()`. A service stages its changes on a copy of the tables and
    hands the copy to `SaveChanges`, which, like the database, either applies
    all of them or none when a unique index would be violated. */
module Store {
  import opened Wrappers
  import opened Domain
  import Authorization
  import Ordering

  datatype Tables = Tables(
    users: seq<User>,
    organizations: seq<Organization>,
    memberships: seq<Membership>,
    teams: seq<Team>,
    categories: seq<Category>,
    leagues: seq<League>,
    quizzes: seq<Quiz>,
    quizCategories: seq<QuizCategory>,
    quizTeams: seq<QuizTeam>,
    helpTypes: seq<HelpType>,
    helpUsages: seq<HelpUsage>,
    scoreEntries: seq<ScoreEntry>,
    payments: seq<Payment>,
    emailTokens: seq<EmailVerificationToken>,
    resetTokens: seq<PasswordResetToken>,
    shareTokens: seq<PublicShareToken>)

  const EmptyTables: Tables := Tables([], [], [], [], [], [], [], [], [], [], [], [], [], [], [], [])

  // The unique indexes.

  predicate UniqueEmails(users: seq<User>) {
    forall i, j :: 0 <= i < j < |users| ==> users[i].email != users[j].email
  }

  predicate UniqueMemberships(ms: seq<Membership>) {
    forall i, j :: 0 <= i < j < |ms| ==> (ms[i].orgId, ms[i].userId) != (ms[j].orgId, ms[j].userId)
  }

  function UsageKey(u: HelpUsage): (Id, Id, Id, Id) {
    (u.meta.orgId, u.quizId, u.teamId, u.helpTypeId)
  }

  predicate UniqueUsages(us: seq<HelpUsage>) {
    forall i, j :: 0 <= i < j < |us| ==> UsageKey(us[i]) != UsageKey(us[j])
  }

  function EntryKey(e: ScoreEntry): (Id, Id, Id, Id) {
    (e.meta.orgId, e.quizId, e.teamId, e.categoryId)
  }

  predicate UniqueEntries(es: seq<ScoreEntry>) {
    forall i, j :: 0 <= i < j < |es| ==> EntryKey(es[i]) != EntryKey(es[j])
  }

  predicate UniqueQuizCategories(qcs: seq<QuizCategory>) {
    forall i, j :: 0 <= i < j < |qcs| ==>
      (qcs[i].quizId, qcs[i].categoryId) != (qcs[j].quizId, qcs[j].categoryId)
  }

  predicate UniqueEmailTokens(ts: seq<EmailVerificationToken>) {
    forall i, j :: 0 <= i < j < |ts| ==> ts[i].token != ts[j].token
  }

  predicate UniqueResetTokens(ts: seq<PasswordResetToken>) {
    forall i, j :: 0 <= i < j < |ts| ==> ts[i].token != ts[j].token
  }

  predicate UniqueShareTokens(ts: seq<PublicShareToken>) {
    forall i, j :: 0 <= i < j < |ts| ==> ts[i].token != ts[j].token
  }

  /** Every unique index of the context holds. */
  predicate Indexed(t: Tables) {
    && UniqueEmails(t.users)
    && UniqueMemberships(t.memberships)
    && UniqueUsages(t.helpUsages)
    && UniqueEntries(t.scoreEntries)
    && UniqueQuizCategories(t.quizCategories)
    && UniqueEmailTokens(t.emailTokens)
    && UniqueResetTokens(t.resetTokens)
    && UniqueShareTokens(t.shareTokens)
  }

  // The invariants the services keep.

  /** Every identifier the store has issued is below `n`. */
  predicate IdsBelow(t: Tables, n: nat) {
    && (forall u :: u in t.users ==> u.id < n)
    && (forall o :: o in t.organizations ==> o.id < n)
    && (forall m :: m in t.memberships ==> m.id < n && m.orgId < n && m.userId < n)
    && (forall q :: q in t.quizzes ==> q.id < n)
    && (forall c :: c in t.categories ==> c.id < n)
    && (forall x :: x in t.teams ==> x.id < n)
    && (forall p :: p in t.payments ==> p.id < n)
    && (forall e :: e in t.scoreEntries ==> e.quizId < n)
    && (forall qc :: qc in t.quizCategories ==> qc.quizId < n)
  }

  predicate PlansConsistent(orgs: seq<Organization>) {
    forall o :: o in orgs ==> PlanConsistent(o)
  }

  /** No organization has more than three Owner or Admin memberships. */
  ghost predicate AdminCapHolds(ms: seq<Membership>) {
    forall orgId :: Authorization.AdminLevelCount(ms, orgId) <= Authorization.AdminCap
  }

  ghost predicate Invariants(t: Tables, n: nat) {
    IdsBelow(t, n) && PlansConsistent(t.organizations) && AdminCapHolds(t.memberships)
  }

  /** A membership the cap lets through keeps every organization within the
      cap. */
  lemma AdminCapAfterAdd(ms: seq<Membership>, m: Membership)
    requires AdminCapHolds(ms)
    requires Authorization.EnsureAdminCap(ms, m.orgId, m.role).Pass?
    ensures AdminCapHolds(ms + [m])
  {
    forall orgId ensures Authorization.AdminLevelCount(ms + [m], orgId) <= Authorization.AdminCap {
      Authorization.AdminLevelCountAppend(ms, [m], orgId);
      Authorization.AdminLevelCountSingle(m, orgId);
    }
  }

  /** A role change the cap lets through keeps every organization within the
      cap. */
  lemma AdminCapAfterRoleChange(ms: seq<Membership>, i: nat, role: Role)
    requires i < |ms| && AdminCapHolds(ms)
    requires Authorization.EnsureAdminCap(ms, ms[i].orgId, role).Pass?
    ensures AdminCapHolds(ms[i := ms[i].(role := role)])
  {
    var after := ms[i := ms[i].(role := role)];
    forall orgId ensures Authorization.AdminLevelCount(after, orgId) <= Authorization.AdminCap {
      Authorization.AdminLevelCountSplit(ms, i, orgId);
      Authorization.AdminLevelCountSplit(after, i, orgId);
      assert after[..i] == ms[..i] && after[i + 1..] == ms[i + 1..];
      Authorization.AdminLevelCountSingle(ms[i], orgId);
      Authorization.AdminLevelCountSingle(after[i], orgId);
    }
  }

  /** Removing a membership never breaks the cap. */
  lemma AdminCapAfterRemove(ms: seq<Membership>, i: nat)
    requires i < |ms| && AdminCapHolds(ms)
    ensures AdminCapHolds(ms[..i] + ms[i + 1..])
  {
    var after := ms[..i] + ms[i + 1..];
    forall orgId ensures Authorization.AdminLevelCount(after, orgId) <= Authorization.AdminCap {
      Authorization.AdminLevelCountSplit(ms, i, orgId);
      Authorization.AdminLevelCountAppend(ms[..i], ms[i + 1..], orgId);
    }
  }

  /** Issuing more identifiers keeps the invariants. */
  lemma InvariantsMonotone(t: Tables, n: nat, n': nat)
    requires Invariants(t, n) && n <= n'
    ensures Invariants(t, n')
  {
  }

  /** Adding a user whose email is new and whose id was issued keeps the
      indexes and the invariants. */
  lemma AddUserKeeps(t: Tables, n: nat, u: User)
    requires Indexed(t) && Invariants(t, n)
    requires u.id < n && forall x :: x in t.users ==> x.email != u.email
    ensures Indexed(t.(users := t.users + [u])) && Invariants(t.(users := t.users + [u]), n)
  {
  }

  /** Adding a membership of issued ids, for a user not yet a member, that the
      cap lets through keeps the indexes and the invariants. */
  lemma AddMembershipKeeps(t: Tables, n: nat, m: Membership)
    requires Indexed(t) && Invariants(t, n)
    requires m.id < n && m.userId < n && m.orgId < n
    requires forall x :: x in t.memberships ==> x.userId != m.userId || x.orgId != m.orgId
    requires Authorization.EnsureAdminCap(t.memberships, m.orgId, m.role).Pass?
    ensures Indexed(t.(memberships := t.memberships + [m])) && Invariants(t.(memberships := t.memberships + [m]), n)
  {
    AdminCapAfterAdd(t.memberships, m);
  }

  // Queries shared by the services.

  /** `Organizations.Find(id)`: organizations have no query filter. */
  function FindOrganization(orgs: seq<Organization>, id: Id): (r: Option<nat>)
    ensures r.Some? ==> r.value < |orgs| && orgs[r.value].id == id
    ensures r.None? <==> forall o :: o in orgs ==> o.id != id
  {
    if orgs == [] then None
    else if orgs[0].id == id then Some(0)
    else
      var r := FindOrganization(orgs[1..], id);
      assert forall o :: o in orgs[1..] ==> o in orgs;
      assert forall o :: o in orgs ==> o == orgs[0] || o in orgs[1..];
      if r.Some? then Some(r.value + 1) else None
  }

  /** `Quizzes.Find(id)` through the soft-delete filter. */
  function FindQuiz(quizzes: seq<Quiz>, id: Id): (r: Option<Quiz>)
    ensures r.Some? ==> r.value in quizzes && r.value.id == id && !r.value.meta.isDeleted
    ensures r.None? <==> forall q :: q in quizzes ==> q.id != id || q.meta.isDeleted
  {
    if quizzes == [] then None
    else if quizzes[0].id == id && !quizzes[0].meta.isDeleted then Some(quizzes[0])
    else
      var r := FindQuiz(quizzes[1..], id);
      assert forall q :: q in quizzes ==> q == quizzes[0] || q in quizzes[1..];
      r
  }

  /** `Users.FirstOrDefault(u => u.Email == email)`, as a position. */
  function FindUserByEmail(users: seq<User>, email: string): (r: Option<nat>)
    ensures r.Some? ==> r.value < |users| && users[r.value].email == email
    ensures r.None? <==> forall u :: u in users ==> u.email != email
  {
    if users == [] then None
    else if users[0].email == email then Some(0)
    else
      var r := FindUserByEmail(users[1..], email);
      assert forall u :: u in users ==> u == users[0] || u in users[1..];
      if r.Some? then Some(r.value + 1) else None
  }

  /** `Memberships.FirstOrDefault(m => m.UserId == userId && m.OrganizationId == orgId)`,
      as a position. */
  function FindMembership(ms: seq<Membership>, userId: Id, orgId: Id): (r: Option<nat>)
    ensures r.Some? ==> r.value < |ms| && ms[r.value].userId == userId && ms[r.value].orgId == orgId
    ensures r.None? <==> forall m :: m in ms ==> m.userId != userId || m.orgId != orgId
  {
    if ms == [] then None
    else if ms[0].userId == userId && ms[0].orgId == orgId then Some(0)
    else
      var r := FindMembership(ms[1..], userId, orgId);
      assert forall m :: m in ms ==> m == ms[0] || m in ms[1..];
      if r.Some? then Some(r.value + 1) else None
  }

  /** The number of memberships of the organization. */
  function MemberCount(ms: seq<Membership>, orgId: Id): (n: nat)
    ensures n == |set i | 0 <= i < |ms| && ms[i].orgId == orgId|
    ensures n <= |ms|
    ensures n == 0 <==> forall m :: m in ms ==> m.orgId != orgId
  {
    var inOrg := (m: Membership) => m.orgId == orgId;
    assert Ordering.Positions(ms, inOrg) == set i | 0 <= i < |ms| && ms[i].orgId == orgId;
    Ordering.Count(ms, inOrg)
  }

  // Change tracking.

  /** The change-tracker states of an entity. */
  datatype EntityState = Added | Modified | Unchanged | Deleted

  /** What `SaveChanges` does to the tenant columns of one tracked entity:
      a modified entity gets `UpdatedAtUtc = now`, any other keeps its value. */
  function Stamp(state: EntityState, meta: Tenant, now: Time): (r: Tenant)
    ensures r.orgId == meta.orgId && r.isDeleted == meta.isDeleted && r.createdAt == meta.createdAt
    ensures r.updatedAt == if state == Modified then now else meta.updatedAt
  {
    if state == Modified then meta.(updatedAt := now) else meta
  }

  /** The stamping loop of `SaveChanges` over the tracked tenant entities. */
  method StampTracked(tracked: seq<(EntityState, Tenant)>, now: Time) returns (r: seq<Tenant>)
    ensures |r| == |tracked|
    ensures forall i :: 0 <= i < |tracked| ==> r[i] == Stamp(tracked[i].0, tracked[i].1, now)
  {
    r := [];
    var i := 0;
    while i < |tracked|
      invariant 0 <= i <= |tracked| && |r| == i
      invariant forall k :: 0 <= k < i ==> r[k] == Stamp(tracked[k].0, tracked[k].1, now)
    {
      var (state, meta) := tracked[i];
      if state == Modified {
        meta := meta.(updatedAt := now);
      }
      r := r + [meta];
      i := i + 1;
    }
  }

  /** Only Modified entities are stamped: added and unchanged ones keep every
      column, and stamping twice at the same instant is stamping once. */
  lemma StampOnlyModified(state: EntityState, meta: Tenant, now: Time)
    ensures state != Modified ==> Stamp(state, meta, now) == meta
    ensures Stamp(state, Stamp(state, meta, now), now) == Stamp(state, meta, now)
  {
  }

  /** Replaces organization `i` by `o`, keeping its identifier. */
  method ReplaceOrganization(db: Db, i: nat, o: Organization)
    requires db.Valid()
    requires i < |db.tables.organizations| && o.id == db.tables.organizations[i].id
    requires PlanConsistent(o)
    modifies db`tables
    ensures db.Valid()
    ensures db.tables == old(db.tables).(organizations := old(db.tables.organizations)[i := o])
  {
    var orgs := db.tables.organizations[i := o];
    var staged := db.tables.(organizations := orgs);
    assert forall x :: x in orgs ==> x == o || x in db.tables.organizations;
    var saved := db.SaveChanges(staged);
    assert Indexed(staged);
  }

  /** Replaces membership `i` by `m`, a change of role only. */
  method ReplaceMembership(db: Db, i: nat, m: Membership)
    requires db.Valid()
    requires i < |db.tables.memberships|
    requires m == db.tables.memberships[i].(role := m.role)
    requires Authorization.EnsureAdminCap(db.tables.memberships, m.orgId, m.role).Pass?
    modifies db`tables
    ensures db.Valid()
    ensures db.tables == old(db.tables).(memberships := old(db.tables.memberships)[i := m])
  {
    var ms := db.tables.memberships[i := m];
    AdminCapAfterRoleChange(db.tables.memberships, i, m.role);
    assert forall x :: x in ms ==> x == m || x in db.tables.memberships;
    var staged := db.tables.(memberships := ms);
    assert Indexed(staged);
    var saved := db.SaveChanges(staged);
  }

  /** Dropping one row keeps a unique index. */
  lemma UniqueMembershipsRemove(ms: seq<Membership>, i: nat)
    requires i < |ms| && UniqueMemberships(ms)
    ensures UniqueMemberships(ms[..i] + ms[i + 1..])
  {
    var after := ms[..i] + ms[i + 1..];
    forall a, b | 0 <= a < b < |after|
      ensures (after[a].orgId, after[a].userId) != (after[b].orgId, after[b].userId)
    {
      var a' := if a < i then a else a + 1;
      var b' := if b < i then b else b + 1;
      assert after[a] == ms[a'] && after[b] == ms[b'];
    }
  }

  /** Removes membership `i`. */
  method RemoveMembership(db: Db, i: nat)
    requires db.Valid()
    requires i < |db.tables.memberships|
    modifies db`tables
    ensures db.Valid()
    ensures db.tables == old(db.tables).(memberships := old(db.tables.memberships)[..i] + old(db.tables.memberships)[i + 1..])
    ensures forall m :: m in old(db.tables.memberships) && m != old(db.tables.memberships)[i] ==> m in db.tables.memberships
  {
    var ms := db.tables.memberships[..i] + db.tables.memberships[i + 1..];
    AdminCapAfterRemove(db.tables.memberships, i);
    UniqueMembershipsRemove(db.tables.memberships, i);
    assert forall x :: x in ms ==> x in db.tables.memberships;
    forall x | x in db.tables.memberships && x != db.tables.memberships[i]
      ensures x in ms
    {
      var k :| 0 <= k < |db.tables.memberships| && db.tables.memberships[k] == x;
      if k < i {
        assert ms[k] == x;
      } else {
        assert ms[k - 1] == x;
      }
    }
    var staged := db.tables.(memberships := ms);
    assert Indexed(staged);
    var saved := db.SaveChanges(staged);
  }

  class Db {
    /** The committed rows of every table. */
    var tables: Tables
    /** The next identifier `Guid.NewGuid()` hands out. */
    var nextId: nat

    ghost predicate Valid()
      reads this
    {
      Indexed(tables) && Invariants(tables, nextId)
    }

    constructor ()
      ensures Valid() && tables == EmptyTables && nextId == 0
    {
      tables := EmptyTables;
      nextId := 0;
    }

    /** Issues `count` fresh identifiers at once, `first` to `first + count - 1`. */
    method NewIds(count: nat) returns (first: Id)
      requires Valid()
      modifies this`nextId
      ensures Valid()
      ensures first == old(nextId) && nextId == first + count
    {
      first := nextId;
      nextId := nextId + count;
    }

    /** Issues a fresh identifier. */
    method NewId() returns (id: Id)
      requires Valid()
      modifies this`nextId
      ensures Valid()
      ensures id == old(nextId) && nextId == id + 1
    {
      id := nextId;
      nextId := nextId + 1;
    }

    /** `SaveChanges`: applies the staged tables when every unique index holds
        of them and rejects the whole batch otherwise. */
    method SaveChanges(staged: Tables) returns (r: Outcome<Error>)
      requires Valid()
      requires Invariants(staged, nextId)
      modifies this`tables
      ensures Valid()
      ensures r.Pass? <==> Indexed(staged)
      ensures r.Fail? ==> r.error == DuplicateKey
      ensures tables == if r.Pass? then staged else old(tables)
    {
      if Indexed(staged) {
        tables := staged;
        r := Pass;
      } else {
        r := Fail(DuplicateKey);
      }
    }
  }
}

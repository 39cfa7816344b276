/** The request-scoped helpers of the service layer: the language picked from
    the `Accept-Language` header, the role checks of the authorization
    service, and the message localizer. */
module Authorization {
  import opened Wrappers
  import opened Domain
  import Text

  /** The request language: "en" when the header starts with "en" in any
      letter case, "sr" otherwise. */
  function ChooseLanguage(acceptLanguage: string): (lang: string)
    ensures lang == "en" || lang == "sr"
    ensures lang == "en" <==>
      |acceptLanguage| >= 2 && acceptLanguage[0] in "eE" && acceptLanguage[1] in "nN"
  {
    if Text.EqualsIgnoreCase(if |acceptLanguage| >= 2 then acceptLanguage[..2] else acceptLanguage, "en")
    then "en" else "sr"
  }

  /** The rank table of `EnsureAtLeast`. */
  function Rank(role: Role): (n: nat)
    ensures 1 <= n <= 3
  {
    match role
    case User => 1
    case Admin => 2
    case Owner => 3
  }

  /** Ranks run opposite to the declaration order of the enum, so sorting by
      role ascending lists the highest rank first. */
  lemma RankReversesDeclarationOrder(a: Role, b: Role)
    ensures RoleOrdinal(a) < RoleOrdinal(b) <==> Rank(a) > Rank(b)
    ensures a == b <==> Rank(a) == Rank(b)
  {
  }

  /** `EnsureAtLeast(required)` for a caller holding `current`. */
  function EnsureAtLeast(current: Role, required: Role): (o: Outcome<Error>)
    ensures o.Fail? ==> o.error == Unauthorized("Insufficient permissions.")
  {
    if Rank(current) < Rank(required) then Fail(Unauthorized("Insufficient permissions.")) else Pass
  }

  /** The check orders the roles User < Admin < Owner: an Owner passes every
      check, every role passes a User check, an Admin passes exactly the
      Admin and User checks, and a User passes only the User check. */
  lemma EnsureAtLeastTable(current: Role, required: Role)
    ensures EnsureAtLeast(current, required).Pass? <==>
      (current == Owner || required == Role.User || (current == Admin && required == Admin))
  {
  }

  /** Passing a check also passes every check of lower or equal rank. */
  lemma EnsureAtLeastMonotone(current: Role, required: Role, lower: Role)
    requires EnsureAtLeast(current, required).Pass?
    requires Rank(lower) <= Rank(required)
    ensures EnsureAtLeast(current, lower).Pass?
  {
  }

  predicate IsAdminLevel(role: Role) {
    role == Owner || role == Admin
  }

  /** The number of Owner or Admin memberships of the organization. */
  function AdminLevelCount(memberships: seq<Membership>, orgId: Id): (n: nat)
    ensures n <= |memberships|
  {
    if memberships == [] then 0
    else
      var m := memberships[|memberships| - 1];
      AdminLevelCount(memberships[..|memberships| - 1], orgId)
        + (if m.orgId == orgId && IsAdminLevel(m.role) then 1 else 0)
  }

  const AdminCap: nat := 3

  /** `EnsureAdminCap(orgId, targetRole)`. */
  function EnsureAdminCap(memberships: seq<Membership>, orgId: Id, target: Role): (o: Outcome<Error>)
    ensures o.Pass? <==> target == Role.User || AdminLevelCount(memberships, orgId) < AdminCap
    ensures o.Fail? ==> o.error == InvalidOperation("Admin cap reached (max 3 admin-level accounts).")
  {
    if IsAdminLevel(target) && AdminLevelCount(memberships, orgId) >= AdminCap
    then Fail(InvalidOperation("Admin cap reached (max 3 admin-level accounts)."))
    else Pass
  }

  /** The cap never stops a User and stops an Admin or Owner exactly when the
      organization already has three admin-level memberships; so a membership
      added after it passes leaves at most three. */
  lemma AdminCapKeepsAtMostThree(memberships: seq<Membership>, orgId: Id, target: Role, m: Membership)
    requires EnsureAdminCap(memberships, orgId, target).Pass?
    requires m.role == target
    ensures target == Role.User ==> AdminLevelCount(memberships + [m], orgId) == AdminLevelCount(memberships, orgId)
    ensures AdminLevelCount(memberships + [m], orgId) <= AdminCap
         || AdminLevelCount(memberships + [m], orgId) == AdminLevelCount(memberships, orgId)
  {
    assert (memberships + [m])[..|memberships|] == memberships;
  }

  lemma {:induction false} AdminLevelCountAppend(a: seq<Membership>, b: seq<Membership>, orgId: Id)
    ensures AdminLevelCount(a + b, orgId) == AdminLevelCount(a, orgId) + AdminLevelCount(b, orgId)
  {
    if b == [] {
      assert a + b == a;
    } else {
      assert (a + b)[..|a + b| - 1] == a + b[..|b| - 1];
      AdminLevelCountAppend(a, b[..|b| - 1], orgId);
    }
  }

  lemma AdminLevelCountSingle(m: Membership, orgId: Id)
    ensures AdminLevelCount([m], orgId) == if m.orgId == orgId && IsAdminLevel(m.role) then 1 else 0
  {
    assert [m][..0] == [];
  }

  /** The count splits around any position. */
  lemma AdminLevelCountSplit(ms: seq<Membership>, i: nat, orgId: Id)
    requires i < |ms|
    ensures AdminLevelCount(ms, orgId)
         == AdminLevelCount(ms[..i], orgId) + AdminLevelCount([ms[i]], orgId) + AdminLevelCount(ms[i + 1..], orgId)
  {
    assert ms == ms[..i] + [ms[i]] + ms[i + 1..];
    AdminLevelCountAppend(ms[..i] + [ms[i]], ms[i + 1..], orgId);
    AdminLevelCountAppend(ms[..i], [ms[i]], orgId);
  }

  /** Memberships of other organizations and User memberships do not count. */
  lemma {:induction false} AdminLevelCountZero(memberships: seq<Membership>, orgId: Id)
    requires forall m :: m in memberships ==> m.orgId != orgId || m.role == Role.User
    ensures AdminLevelCount(memberships, orgId) == 0
  {
    if memberships != [] {
      AdminLevelCountZero(memberships[..|memberships| - 1], orgId);
    }
  }

  // The localizer.

  /** The message table: key to (Serbian, English). */
  const Messages: map<string, (string, string)> := map[
    "QuizCreated" := ("Kviz je uspešno kreiran.", "Quiz created successfully."),
    "ValidationRequired" := ("Polje je obavezno.", "Field is required."),
    "Forbidden" := ("Nemate dozvolu za ovu akciju.", "You are not allowed to perform this action.")
  ]

  /** `T(key)` in the request language. */
  function T(language: string, key: string): (text: string)
    ensures key !in Messages ==> text == key
  {
    if key in Messages then (if language == "en" then Messages[key].1 else Messages[key].0) else key
  }

  /** Known keys give the English text for "en" and the Serbian text for every
      other language, and the two differ; unknown keys come back unchanged. */
  lemma LocalizerChoosesLanguage(language: string, key: string)
    requires key in Messages
    ensures T(language, key) == T("en", key) <==> language == "en"
    ensures language != "en" ==> T(language, key) == T("sr", key)
  {
  }

  /** Of the keys the services use, only "Forbidden" and "QuizCreated" are in
      the table; the others are returned as they are. */
  lemma UnknownKeysEchoed(language: string)
    ensures T(language, "OwnerOnly") == "OwnerOnly"
    ensures T(language, "OrganizationNotFound") == "OrganizationNotFound"
    ensures T(language, "Forbidden") != "Forbidden"
  {
  }
}

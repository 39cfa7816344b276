/** The subscription service: the effective plan, the plan limits and the
    feature gates, the three owner-only plan transitions, and the sweep that
    ends expired trials. */
module Subscription {
  import opened Wrappers
  import opened Domain
  import opened Store
  import Authorization
  import Ordering

  const FreeQuizzesPerMonth: int := 5
  const FreeMemberLimit: int := 1
  const PremiumMemberLimit: int := 1000
  /** `int.MaxValue`. */
  const IntMax: int := 0x7FFF_FFFF

  /** A trial that has an end in the past. */
  predicate IsExpiredTrial(o: Organization, now: Time) {
    o.plan == Trial && o.trialEndsAt.Some? && o.trialEndsAt.value < now
  }

  /** `GetEffectivePlan`: an expired trial counts as Free. */
  function EffectivePlan(o: Organization, now: Time): (p: Plan)
    ensures p == Free <==> o.plan == Free || IsExpiredTrial(o, now)
    ensures p != Free ==> p == o.plan
  {
    if IsExpiredTrial(o, now) then Free else o.plan
  }

  /** The `IsTrialActive` flag of the subscription view. */
  predicate IsTrialActive(o: Organization, now: Time) {
    o.plan == Trial && o.trialEndsAt.Some? && o.trialEndsAt.value >= now
  }

  /** For a consistent organization the trial is active exactly when the
      effective plan is Trial. */
  lemma TrialActiveIffEffectiveTrial(o: Organization, now: Time)
    requires PlanConsistent(o)
    ensures IsTrialActive(o, now) <==> EffectivePlan(o, now) == Trial
  {
  }

  datatype Features = Features(leagues: bool, questionBank: bool, members: bool, share: bool, customBranding: bool)
  datatype Limits = Limits(quizzesPerMonth: int, memberLimit: int, features: Features)

  /** `GetLimitsAndFeatures(effective)`. */
  function LimitsAndFeatures(p: Plan): (l: Limits)
    ensures p == Free ==> l == Limits(FreeQuizzesPerMonth, FreeMemberLimit, Features(false, false, false, false, false))
    ensures p != Free ==> l == Limits(IntMax, PremiumMemberLimit, Features(true, true, true, true, true))
  {
    match p
    case Free => Limits(FreeQuizzesPerMonth, FreeMemberLimit, Features(false, false, false, false, false))
    case Trial => Limits(IntMax, PremiumMemberLimit, Features(true, true, true, true, true))
    case Premium => Limits(IntMax, PremiumMemberLimit, Features(true, true, true, true, true))
  }

  /** The features `EnforceFeature` gates. */
  const GatedFeatures: set<string> := {"leagues", "questionBank", "members", "share"}

  /** The flag of the limits view that describes a gated feature. */
  function FeatureFlag(f: Features, feature: string): bool
    requires feature in GatedFeatures
  {
    if feature == "leagues" then f.leagues
    else if feature == "questionBank" then f.questionBank
    else if feature == "members" then f.members
    else f.share
  }

  /** The organization of the request, as `Find(ctx.OrganizationId)!`: a
      missing one is dereferenced and fails. */
  function ContextOrganization(t: Tables, ctx: RequestContext): (r: Result<Organization, Error>)
    ensures r.Ok? ==> r.value in t.organizations && r.value.id == ctx.orgId
    ensures r.Err? ==> r.error == NullReference
  {
    var i := FindOrganization(t.organizations, ctx.orgId);
    if i.None? then Err(NullReference) else Ok(t.organizations[i.value])
  }

  /** `EnforceFeature(feature)`. */
  function EnforceFeature(t: Tables, ctx: RequestContext, feature: string, now: Time): (o: Outcome<Error>)
    ensures ContextOrganization(t, ctx).Err? ==> o == Fail(NullReference)
    ensures ContextOrganization(t, ctx).Ok? ==>
      (o.Fail? <==> EffectivePlan(ContextOrganization(t, ctx).value, now) == Free && feature in GatedFeatures)
  {
    var org := ContextOrganization(t, ctx);
    if org.Err? then Fail(org.error)
    else if EffectivePlan(org.value, now) == Free && feature in GatedFeatures
    then Fail(InvalidOperation(Authorization.T(ctx.language, "FeatureRequiresPremium")))
    else Pass
  }

  /** The gate and the limits view agree: a gated feature is refused exactly
      when the limits view of the effective plan shows its flag off. */
  lemma GateAgreesWithLimits(t: Tables, ctx: RequestContext, feature: string, now: Time)
    requires ContextOrganization(t, ctx).Ok? && feature in GatedFeatures
    ensures EnforceFeature(t, ctx, feature, now).Fail?
        <==> !FeatureFlag(LimitsAndFeatures(EffectivePlan(ContextOrganization(t, ctx).value, now)).features, feature)
  {
  }

  /** A quiz of the organization, not deleted, created since `since`. */
  predicate CreatedSince(q: Quiz, orgId: Id, since: Time) {
    q.meta.orgId == orgId && !q.meta.isDeleted && q.meta.createdAt >= since
  }

  /** The number of quizzes of the organization, not deleted, created since
      `since`. */
  function QuizzesSince(quizzes: seq<Quiz>, orgId: Id, since: Time): (n: nat)
    ensures n == |set i | 0 <= i < |quizzes| && CreatedSince(quizzes[i], orgId, since)|
    ensures n <= |quizzes|
  {
    var counted := (q: Quiz) => CreatedSince(q, orgId, since);
    assert Ordering.Positions(quizzes, counted) == set i | 0 <= i < |quizzes| && CreatedSince(quizzes[i], orgId, since);
    Ordering.Count(quizzes, counted)
  }

  /** `EnforceQuizMonthlyLimit()`; `startOfMonth` is the first instant of the
      current UTC month. */
  function EnforceQuizMonthlyLimit(t: Tables, ctx: RequestContext, now: Time, startOfMonth: Time): (o: Outcome<Error>)
    ensures ContextOrganization(t, ctx).Err? ==> o == Fail(NullReference)
    ensures ContextOrganization(t, ctx).Ok? ==>
      (o.Fail? <==> EffectivePlan(ContextOrganization(t, ctx).value, now) == Free
                    && QuizzesSince(t.quizzes, ctx.orgId, startOfMonth) >= FreeQuizzesPerMonth)
  {
    var org := ContextOrganization(t, ctx);
    if org.Err? then Fail(org.error)
    else if EffectivePlan(org.value, now) != Free then Pass
    else if QuizzesSince(t.quizzes, ctx.orgId, startOfMonth) >= FreeQuizzesPerMonth
    then Fail(InvalidOperation(Authorization.T(ctx.language, "FreeQuizLimitReached")))
    else Pass
  }

  /** `EnforceMemberLimit()`. */
  function EnforceMemberLimit(t: Tables, ctx: RequestContext, now: Time): (o: Outcome<Error>)
    ensures ContextOrganization(t, ctx).Err? ==> o == Fail(NullReference)
    ensures ContextOrganization(t, ctx).Ok? ==>
      (o.Fail? <==> EffectivePlan(ContextOrganization(t, ctx).value, now) == Free
                    && MemberCount(t.memberships, ctx.orgId) >= FreeMemberLimit)
  {
    var org := ContextOrganization(t, ctx);
    if org.Err? then Fail(org.error)
    else if EffectivePlan(org.value, now) == Free && MemberCount(t.memberships, ctx.orgId) >= FreeMemberLimit
    then Fail(InvalidOperation(Authorization.T(ctx.language, "FreeMemberLimitReached")))
    else Pass
  }

  datatype SubscriptionView = SubscriptionView(
    plan: Plan,
    isTrialActive: bool,
    trialEndsAt: Option<Time>,
    quizzesUsedThisMonth: nat,
    quizzesLimitPerMonth: int,
    memberCount: nat,
    memberLimit: int,
    features: Features)

  /** `GetCurrentSubscriptionAsync(orgId)`. */
  function GetCurrentSubscription(t: Tables, language: string, orgId: Id, now: Time, startOfMonth: Time)
    : (r: Result<SubscriptionView, Error>)
    ensures r.Err? <==> FindOrganization(t.organizations, orgId).None?
    ensures r.Ok? ==>
      var o := t.organizations[FindOrganization(t.organizations, orgId).value];
      && r.value.plan == EffectivePlan(o, now)
      && r.value.quizzesLimitPerMonth == LimitsAndFeatures(r.value.plan).quizzesPerMonth
      && r.value.memberLimit == LimitsAndFeatures(r.value.plan).memberLimit
      && r.value.features == LimitsAndFeatures(r.value.plan).features
      && (PlanConsistent(o) ==> (r.value.isTrialActive <==> r.value.plan == Trial))
      && r.value.trialEndsAt == o.trialEndsAt
      && r.value.quizzesUsedThisMonth == QuizzesSince(t.quizzes, orgId, startOfMonth)
      && r.value.memberCount == MemberCount(t.memberships, orgId)
  {
    var i := FindOrganization(t.organizations, orgId);
    if i.None? then Err(InvalidOperation(Authorization.T(language, "OrganizationNotFound")))
    else
      var o := t.organizations[i.value];
      var effective := EffectivePlan(o, now);
      var limits := LimitsAndFeatures(effective);
      Ok(SubscriptionView(effective, IsTrialActive(o, now), o.trialEndsAt,
        QuizzesSince(t.quizzes, orgId, startOfMonth), limits.quizzesPerMonth,
        MemberCount(t.memberships, orgId), limits.memberLimit, limits.features))
  }

  // The plan transitions.

  /** The guard the three transitions share: the caller acts in the target
      organization and is its Owner, checked before the organization is read. */
  function OwnerGuard(ctx: RequestContext, orgId: Id): (o: Outcome<Error>)
    ensures o.Pass? <==> ctx.orgId == orgId && ctx.role == Owner
  {
    if ctx.orgId != orgId then Fail(Unauthorized(Authorization.T(ctx.language, "Forbidden")))
    else if ctx.role != Owner then Fail(Unauthorized(Authorization.T(ctx.language, "OwnerOnly")))
    else Pass
  }

  /** The organization after `StartTrialAsync`, or why it fails. */
  function StartTrialStep(ctx: RequestContext, orgId: Id, org: Option<Organization>, now: Time)
    : (r: Result<Organization, Error>)
    ensures OwnerGuard(ctx, orgId).Fail? ==> r == Err(OwnerGuard(ctx, orgId).error)
    ensures r.Ok? <==> OwnerGuard(ctx, orgId).Pass? && org.Some? && EffectivePlan(org.value, now) == Free
    ensures r.Ok? ==> r.value == org.value.(plan := Trial, trialEndsAt := Some(now + TrialDays * Day), updatedAt := now)
  {
    if OwnerGuard(ctx, orgId).Fail? then Err(OwnerGuard(ctx, orgId).error)
    else if org.None? then Err(InvalidOperation(Authorization.T(ctx.language, "OrganizationNotFound")))
    else if EffectivePlan(org.value, now) != Free
    then Err(InvalidOperation(Authorization.T(ctx.language, "TrialOnlyFromFree")))
    else Ok(org.value.(plan := Trial, trialEndsAt := Some(now + TrialDays * Day), updatedAt := now))
  }

  /** The organization after `SetPremiumAsync`, or why it fails. */
  function SetPremiumStep(ctx: RequestContext, orgId: Id, org: Option<Organization>, now: Time)
    : (r: Result<Organization, Error>)
    ensures OwnerGuard(ctx, orgId).Fail? ==> r == Err(OwnerGuard(ctx, orgId).error)
    ensures r.Ok? <==> OwnerGuard(ctx, orgId).Pass? && org.Some?
    ensures r.Ok? ==> r.value == org.value.(plan := Premium, trialEndsAt := None, updatedAt := now)
  {
    if OwnerGuard(ctx, orgId).Fail? then Err(OwnerGuard(ctx, orgId).error)
    else if org.None? then Err(InvalidOperation(Authorization.T(ctx.language, "OrganizationNotFound")))
    else Ok(org.value.(plan := Premium, trialEndsAt := None, updatedAt := now))
  }

  /** The organization after `DowngradeToFreeAsync`, or why it fails. */
  function DowngradeStep(ctx: RequestContext, orgId: Id, org: Option<Organization>, memberCount: nat, now: Time)
    : (r: Result<Organization, Error>)
    ensures OwnerGuard(ctx, orgId).Fail? ==> r == Err(OwnerGuard(ctx, orgId).error)
    ensures r.Ok? <==> OwnerGuard(ctx, orgId).Pass? && org.Some? && memberCount <= FreeMemberLimit
    ensures r.Ok? ==> r.value == org.value.(plan := Free, trialEndsAt := None, updatedAt := now)
  {
    if OwnerGuard(ctx, orgId).Fail? then Err(OwnerGuard(ctx, orgId).error)
    else if org.None? then Err(InvalidOperation(Authorization.T(ctx.language, "OrganizationNotFound")))
    else if memberCount > FreeMemberLimit
    then Err(InvalidOperation(Authorization.T(ctx.language, "DowngradeRemoveMembersFirst")))
    else Ok(org.value.(plan := Free, trialEndsAt := None, updatedAt := now))
  }

  /** Every transition that succeeds leaves a consistent organization whose
      effective plan is the plan it set, so the three plans form a machine
      whose states are exactly the stored plans. */
  lemma TransitionsConsistent(ctx: RequestContext, orgId: Id, org: Option<Organization>, memberCount: nat, now: Time)
    ensures StartTrialStep(ctx, orgId, org, now).Ok? ==>
      PlanConsistent(StartTrialStep(ctx, orgId, org, now).value)
      && EffectivePlan(StartTrialStep(ctx, orgId, org, now).value, now) == Trial
    ensures SetPremiumStep(ctx, orgId, org, now).Ok? ==>
      PlanConsistent(SetPremiumStep(ctx, orgId, org, now).value)
      && EffectivePlan(SetPremiumStep(ctx, orgId, org, now).value, now) == Premium
    ensures DowngradeStep(ctx, orgId, org, memberCount, now).Ok? ==>
      PlanConsistent(DowngradeStep(ctx, orgId, org, memberCount, now).value)
      && EffectivePlan(DowngradeStep(ctx, orgId, org, memberCount, now).value, now) == Free
  {
  }

  /** A trial can be restarted from an expired trial that the sweep has not
      yet turned into Free, but never from a running trial or from Premium. */
  lemma StartTrialFromExpiredTrial(ctx: RequestContext, o: Organization, now: Time)
    requires ctx.orgId == o.id && ctx.role == Owner
    ensures IsExpiredTrial(o, now) ==> StartTrialStep(ctx, o.id, Some(o), now).Ok?
    ensures IsTrialActive(o, now) || o.plan == Premium ==> StartTrialStep(ctx, o.id, Some(o), now).Err?
  {
  }

  /** Runs a transition step against the store. */
  method ApplyStep(db: Db, i: Option<nat>, step: Result<Organization, Error>) returns (r: Outcome<Error>)
    requires db.Valid()
    requires i.Some? ==> i.value < |db.tables.organizations|
    requires step.Ok? ==> i.Some? && step.value.id == db.tables.organizations[i.value].id && PlanConsistent(step.value)
    modifies db`tables
    ensures db.Valid()
    ensures r.Pass? <==> step.Ok?
    ensures r.Fail? ==> r.error == step.error && db.tables == old(db.tables)
    ensures r.Pass? ==> db.tables == old(db.tables).(organizations := old(db.tables.organizations)[i.value := step.value])
  {
    if step.Err? {
      return Fail(step.error);
    }
    ReplaceOrganization(db, i.value, step.value);
    r := Pass;
  }

  function OrgAt(orgs: seq<Organization>, i: Option<nat>): Option<Organization>
    requires i.Some? ==> i.value < |orgs|
  {
    if i.Some? then Some(orgs[i.value]) else None
  }

  /** `StartTrialAsync(orgId)`. */
  method StartTrial(db: Db, ctx: RequestContext, orgId: Id, now: Time) returns (r: Outcome<Error>)
    requires db.Valid()
    modifies db`tables
    ensures db.Valid()
    ensures var i := FindOrganization(old(db.tables.organizations), orgId);
      var step := StartTrialStep(ctx, orgId, OrgAt(old(db.tables.organizations), i), now);
      && (r.Pass? <==> step.Ok?)
      && (r.Fail? ==> r.error == step.error && db.tables == old(db.tables))
      && (r.Pass? ==> db.tables == old(db.tables).(organizations := old(db.tables.organizations)[i.value := step.value]))
  {
    var i := FindOrganization(db.tables.organizations, orgId);
    var step := StartTrialStep(ctx, orgId, OrgAt(db.tables.organizations, i), now);
    r := ApplyStep(db, i, step);
  }

  /** `SetPremiumAsync(orgId)`. */
  method SetPremium(db: Db, ctx: RequestContext, orgId: Id, now: Time) returns (r: Outcome<Error>)
    requires db.Valid()
    modifies db`tables
    ensures db.Valid()
    ensures var i := FindOrganization(old(db.tables.organizations), orgId);
      var step := SetPremiumStep(ctx, orgId, OrgAt(old(db.tables.organizations), i), now);
      && (r.Pass? <==> step.Ok?)
      && (r.Fail? ==> r.error == step.error && db.tables == old(db.tables))
      && (r.Pass? ==> db.tables == old(db.tables).(organizations := old(db.tables.organizations)[i.value := step.value]))
  {
    var i := FindOrganization(db.tables.organizations, orgId);
    var step := SetPremiumStep(ctx, orgId, OrgAt(db.tables.organizations, i), now);
    r := ApplyStep(db, i, step);
  }

  /** `DowngradeToFreeAsync(orgId)`. */
  method DowngradeToFree(db: Db, ctx: RequestContext, orgId: Id, now: Time) returns (r: Outcome<Error>)
    requires db.Valid()
    modifies db`tables
    ensures db.Valid()
    ensures var i := FindOrganization(old(db.tables.organizations), orgId);
      var step := DowngradeStep(ctx, orgId, OrgAt(old(db.tables.organizations), i),
                                MemberCount(old(db.tables.memberships), orgId), now);
      && (r.Pass? <==> step.Ok?)
      && (r.Fail? ==> r.error == step.error && db.tables == old(db.tables))
      && (r.Pass? ==> db.tables == old(db.tables).(organizations := old(db.tables.organizations)[i.value := step.value]))
  {
    var i := FindOrganization(db.tables.organizations, orgId);
    var step := DowngradeStep(ctx, orgId, OrgAt(db.tables.organizations, i),
                              MemberCount(db.tables.memberships, orgId), now);
    r := ApplyStep(db, i, step);
  }

  // The expiry sweep.

  /** One organization after the sweep at `now`. */
  function Expire(o: Organization, now: Time): (e: Organization)
    ensures IsExpiredTrial(o, now) ==> e == o.(plan := Free, trialEndsAt := None, updatedAt := now)
    ensures !IsExpiredTrial(o, now) ==> e == o
  {
    if IsExpiredTrial(o, now) then o.(plan := Free, trialEndsAt := None, updatedAt := now) else o
  }

  function ExpireAll(orgs: seq<Organization>, now: Time): (r: seq<Organization>)
    ensures |r| == |orgs| && forall i :: 0 <= i < |orgs| ==> r[i] == Expire(orgs[i], now)
  {
    seq(|orgs|, i requires 0 <= i < |orgs| => Expire(orgs[i], now))
  }

  /** The sweep keeps the effective plan of every organization, leaves no
      expired trial behind, keeps plans consistent, and a second sweep at the
      same instant changes nothing. */
  lemma ExpireAllProperties(orgs: seq<Organization>, now: Time)
    ensures forall i :: 0 <= i < |orgs| ==> EffectivePlan(ExpireAll(orgs, now)[i], now) == EffectivePlan(orgs[i], now)
    ensures forall i :: 0 <= i < |orgs| ==> !IsExpiredTrial(ExpireAll(orgs, now)[i], now)
    ensures PlansConsistent(orgs) ==> PlansConsistent(ExpireAll(orgs, now))
    ensures ExpireAll(ExpireAll(orgs, now), now) == ExpireAll(orgs, now)
  {
  }

  /** `ExpireTrialsAsync()`. */
  method ExpireTrials(db: Db, now: Time)
    requires db.Valid()
    modifies db`tables
    ensures db.Valid()
    ensures db.tables == old(db.tables).(organizations := ExpireAll(old(db.tables.organizations), now))
  {
    var orgs := db.tables.organizations;
    var expired := 0;
    var i := 0;
    while i < |orgs|
      invariant 0 <= i <= |orgs| == |db.tables.organizations|
      invariant forall k :: 0 <= k < i ==> orgs[k] == Expire(db.tables.organizations[k], now)
      invariant forall k :: i <= k < |orgs| ==> orgs[k] == db.tables.organizations[k]
      invariant expired == 0 ==> orgs[..i] == db.tables.organizations[..i]
    {
      if IsExpiredTrial(orgs[i], now) {
        orgs := orgs[i := orgs[i].(plan := Free, trialEndsAt := None, updatedAt := now)];
        expired := expired + 1;
      }
      i := i + 1;
    }
    assert orgs == ExpireAll(db.tables.organizations, now);
    if expired > 0 {
      var staged := db.tables.(organizations := orgs);
      ExpireAllProperties(db.tables.organizations, now);
      assert forall o :: o in orgs ==> exists k :: 0 <= k < |orgs| && o == Expire(db.tables.organizations[k], now);
      var saved := db.SaveChanges(staged);
      assert Indexed(staged);
    } else {
      assert orgs == db.tables.organizations;
    }
  }
}

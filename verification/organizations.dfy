/** The organization endpoints that change the organization and its
    memberships: updating the name and colour, inviting a member, changing a
    member's role and removing a member. Every one of them keeps the store's
    invariants, the admin cap among them. */
module Organizations {
  import opened Wrappers
  import opened Domain
  import opened Store
  import Authorization
  import Subscription
  import Enums
  import Text

  /** The message of the `ArgumentException` that `Enum.Parse` throws. */
  function NotAnEnumValue(text: string): string {
    "Requested value '" + text + "' was not found."
  }

  /** `UpdateOrganization(request)`: an Owner sets the fields the request
      carries and leaves the others as they are. */
  method UpdateOrganization(db: Db, ctx: RequestContext, name: Option<string>, primaryColor: Option<string>, now: Time)
    returns (r: Result<Organization, Error>)
    requires db.Valid()
    modifies db`tables
    ensures db.Valid()
    ensures Authorization.EnsureAtLeast(ctx.role, Owner).Fail? ==>
      r == Err(Unauthorized("Insufficient permissions.")) && db.tables == old(db.tables)
    ensures Authorization.EnsureAtLeast(ctx.role, Owner).Pass? && FindOrganization(old(db.tables.organizations), ctx.orgId).None? ==>
      r == Err(NotFound) && db.tables == old(db.tables)
    ensures r.Ok? <==>
      Authorization.EnsureAtLeast(ctx.role, Owner).Pass? && FindOrganization(old(db.tables.organizations), ctx.orgId).Some?
    ensures r.Ok? ==>
      var i := FindOrganization(old(db.tables.organizations), ctx.orgId).value;
      var o := old(db.tables.organizations)[i];
      && r.value == o.(name := name.GetOr(o.name), primaryColor := primaryColor.GetOr(o.primaryColor), updatedAt := now)
      && db.tables == old(db.tables).(organizations := old(db.tables.organizations)[i := r.value])
  {
    var gate := Authorization.EnsureAtLeast(ctx.role, Owner);
    if gate.Fail? {
      return Err(gate.error);
    }
    var i := FindOrganization(db.tables.organizations, ctx.orgId);
    if i.None? {
      return Err(NotFound);
    }
    var o := db.tables.organizations[i.value];
    assert PlanConsistent(o) by {
      assert o in db.tables.organizations;
    }
    if name.Some? {
      o := o.(name := name.value);
    }
    if primaryColor.Some? {
      o := o.(primaryColor := primaryColor.value);
    }
    o := o.(updatedAt := now);
    ReplaceOrganization(db, i.value, o);
    r := Ok(o);
  }

  // Inviting a member.

  /** The response of a successful invitation. */
  datatype Invitation = Invitation(userId: Id, email: string, displayName: string, role: Role)

  /** The checks `InviteMember` makes before it touches the store, in their
      order: Admin or above, the "members" feature, the member limit, the
      requested role, the admin cap for that role. */
  function InviteGuards(t: Tables, ctx: RequestContext, roleText: string, now: Time): (r: Result<Role, Error>)
    ensures r.Ok? <==>
      && Authorization.EnsureAtLeast(ctx.role, Admin).Pass?
      && Subscription.EnforceFeature(t, ctx, "members", now).Pass?
      && Subscription.EnforceMemberLimit(t, ctx, now).Pass?
      && Enums.ParseRole(roleText).Some?
      && Authorization.EnsureAdminCap(t.memberships, ctx.orgId, Enums.ParseRole(roleText).value).Pass?
    ensures r.Ok? ==> Enums.ParseRole(roleText) == Some(r.value)
  {
    var rank := Authorization.EnsureAtLeast(ctx.role, Admin);
    var feature := Subscription.EnforceFeature(t, ctx, "members", now);
    var limit := Subscription.EnforceMemberLimit(t, ctx, now);
    var role := Enums.ParseRole(roleText);
    if rank.Fail? then Err(rank.error)
    else if feature.Fail? then Err(feature.error)
    else if limit.Fail? then Err(limit.error)
    else if role.None? then Err(InvalidArgument(NotAnEnumValue(roleText)))
    else
      var cap := Authorization.EnsureAdminCap(t.memberships, ctx.orgId, role.value);
      if cap.Fail? then Err(cap.error) else Ok(role.value)
  }

  /** The first check that fails decides the response: a User is refused
      before anything else is looked at, and a Free plan is refused before
      the requested role is read. */
  lemma InviteGuardOrder(t: Tables, ctx: RequestContext, roleText: string, now: Time)
    ensures ctx.role == Role.User ==> InviteGuards(t, ctx, roleText, now) == Err(Unauthorized("Insufficient permissions."))
    ensures (&& ctx.role != Role.User
             && Subscription.ContextOrganization(t, ctx).Ok?
             && Subscription.EffectivePlan(Subscription.ContextOrganization(t, ctx).value, now) == Free) ==>
      InviteGuards(t, ctx, roleText, now)
      == Err(InvalidOperation(Authorization.T(ctx.language, "FeatureRequiresPremium")))
  {
  }

  /** The member limit never refuses an invitation: it only bites on the
      Free plan, where the feature check has already refused it. */
  lemma MemberLimitNeverRefusesInvite(t: Tables, ctx: RequestContext, roleText: string, now: Time)
    ensures InviteGuards(t, ctx, roleText, now)
         != Err(InvalidOperation(Authorization.T(ctx.language, "FreeMemberLimitReached")))
  {
    var feature := Subscription.EnforceFeature(t, ctx, "members", now);
    if feature.Pass? && Subscription.ContextOrganization(t, ctx).Ok? {
      assert Subscription.EnforceMemberLimit(t, ctx, now).Pass?;
    }
  }

  /** Unlike a role change, an invitation may ask for the Owner role: an
      Admin of a paid organization without admin-level members can invite a
      second Owner. */
  lemma InviteMayCreateOwner(t: Tables, ctx: RequestContext, now: Time)
    requires ctx.role == Admin
    requires Subscription.ContextOrganization(t, ctx).Ok?
    requires Subscription.ContextOrganization(t, ctx).value.plan == Premium
    requires forall m :: m in t.memberships ==> m.orgId != ctx.orgId || m.role == Role.User
    ensures InviteGuards(t, ctx, Enums.RoleName(Owner), now) == Ok(Owner)
  {
    var org := Subscription.ContextOrganization(t, ctx).value;
    assert Subscription.EffectivePlan(org, now) == Premium;
    assert Subscription.EnforceFeature(t, ctx, "members", now).Pass?;
    assert Subscription.EnforceMemberLimit(t, ctx, now).Pass?;
    Enums.ParseRoleRoundTrip(Owner);
    Authorization.AdminLevelCountZero(t.memberships, ctx.orgId);
    assert Authorization.EnsureAdminCap(t.memberships, ctx.orgId, Owner).Pass?;
  }

  /** `InviteMember(request)`: after the checks, finds the user by email or
      creates a pending one, refuses an existing member, and otherwise adds
      exactly one membership with the requested role. */
  method InviteMember(db: Db, ctx: RequestContext, email: string, displayName: Option<string>, roleText: string, now: Time)
    returns (r: Result<Invitation, Error>)
    requires db.Valid()
    modifies db`tables, db`nextId
    ensures db.Valid()
    ensures var g := InviteGuards(old(db.tables), ctx, roleText, now);
      g.Err? ==> r == Err(g.error) && db.tables == old(db.tables)
    ensures var g := InviteGuards(old(db.tables), ctx, roleText, now);
      g.Ok? ==> Admitted(old(db.tables), old(db.nextId), ctx.orgId, email, displayName, g.value, r, db.tables)
  {
    var guards := InviteGuards(db.tables, ctx, roleText, now);
    if guards.Err? {
      return Err(guards.error);
    }
    // The feature check found the organization, so its id was issued.
    assert Subscription.ContextOrganization(db.tables, ctx).Ok?;
    r := AddMember(db, ctx.orgId, email, displayName, guards.value);
  }

  /** The store with one more user and one more membership. */
  function PendingMember(t: Tables, user: User, m: Membership): Tables
  {
    t.(users := t.users + [user], memberships := t.memberships + [m])
  }

  /** The store and response after the checks of an invitation passed: an
      existing member is refused with the store unchanged; otherwise the
      user found by email, or a new pending user with the next id, gets one
      new membership with the next id after that. */
  ghost predicate Admitted(
    before: Tables, nextId: nat, orgId: Id, email: string, displayName: Option<string>, role: Role,
    r: Result<Invitation, Error>, after: Tables)
  {
    var u := FindUserByEmail(before.users, email);
    if u.Some? then
      var user := before.users[u.value];
      if FindMembership(before.memberships, user.id, orgId).Some? then
        r == Err(BadRequest("AlreadyMember")) && after == before
      else
        && r == Ok(Invitation(user.id, user.email, user.displayName, role))
        && after == before.(memberships := before.memberships + [Membership(nextId, user.id, orgId, role)])
    else
      var user := User.User(nextId, email, "pending", displayName.GetOr(email), "sr", false);
      && r == Ok(Invitation(user.id, email, user.displayName, role))
      && after == PendingMember(before, user, Membership(nextId + 1, user.id, orgId, role))
  }

  /** The store part of `InviteMember`. */
  method AddMember(db: Db, orgId: Id, email: string, displayName: Option<string>, role: Role)
    returns (r: Result<Invitation, Error>)
    requires db.Valid()
    requires orgId < db.nextId
    requires Authorization.EnsureAdminCap(db.tables.memberships, orgId, role).Pass?
    modifies db`tables, db`nextId
    ensures db.Valid()
    ensures Admitted(old(db.tables), old(db.nextId), orgId, email, displayName, role, r, db.tables)
  {
    var found := FindUserByEmail(db.tables.users, email);
    if found.Some? {
      var user := db.tables.users[found.value];
      if FindMembership(db.tables.memberships, user.id, orgId).Some? {
        return Err(BadRequest("AlreadyMember"));
      }
      r := SaveMembership(db, user, orgId, role);
    } else {
      r := AdmitPending(db, orgId, email, displayName, role);
    }
  }

  /** Creates a pending user for `email` and makes it a member. */
  method AdmitPending(db: Db, orgId: Id, email: string, displayName: Option<string>, role: Role)
    returns (r: Result<Invitation, Error>)
    requires db.Valid()
    requires orgId < db.nextId
    requires FindUserByEmail(db.tables.users, email).None?
    requires Authorization.EnsureAdminCap(db.tables.memberships, orgId, role).Pass?
    modifies db`tables, db`nextId
    ensures db.Valid()
    ensures var user := User.User(old(db.nextId), email, "pending", displayName.GetOr(email), "sr", false);
      && r == Ok(Invitation(user.id, email, user.displayName, role))
      && db.tables == PendingMember(old(db.tables), user, Membership(old(db.nextId) + 1, user.id, orgId, role))
  {
    var id := db.NewIds(2);
    var user := User.User(id, email, "pending", displayName.GetOr(email), "sr", false);
    r := SavePending(db, user, orgId, role);
  }

  /** Saves the store with the pending `user`, whose id was issued just
      before the id of its membership. */
  method SavePending(db: Db, user: User, orgId: Id, role: Role) returns (r: Result<Invitation, Error>)
    requires db.Valid() && db.nextId >= 2 && Invariants(db.tables, db.nextId - 2)
    requires user.id == db.nextId - 2 && FindUserByEmail(db.tables.users, user.email).None?
    requires orgId < db.nextId - 2 && Authorization.EnsureAdminCap(db.tables.memberships, orgId, role).Pass?
    modifies db`tables
    ensures db.Valid()
    ensures r == Ok(Invitation(user.id, user.email, user.displayName, role))
    ensures db.tables == PendingMember(old(db.tables), user, Membership(user.id + 1, user.id, orgId, role))
  {
    PendingMemberKeeps(db.tables, user.id, user, orgId, role);
    var saved := db.SaveChanges(PendingMember(db.tables, user, Membership(user.id + 1, user.id, orgId, role)));
    r := Ok(Invitation(user.id, user.email, user.displayName, role));
  }

  /** A pending user under the next identifier, for a new email, with a
      membership under the identifier after it keeps the indexes and the
      invariants: being new, the user belongs to no organization yet. */
  lemma PendingMemberKeeps(t: Tables, n: nat, user: User, orgId: Id, role: Role)
    requires Indexed(t) && Invariants(t, n)
    requires user.id == n && FindUserByEmail(t.users, user.email).None?
    requires orgId < n && Authorization.EnsureAdminCap(t.memberships, orgId, role).Pass?
    ensures var t' := PendingMember(t, user, Membership(n + 1, n, orgId, role));
      Indexed(t') && Invariants(t', n + 2)
  {
    InvariantsMonotone(t, n, n + 2);
    AddUserKeeps(t, n + 2, user);
    assert forall m :: m in t.memberships ==> m.userId < n;
    AddMembershipKeeps(t.(users := t.users + [user]), n + 2, Membership(n + 1, n, orgId, role));
  }

  /** Makes an existing user a member, under the next id. */
  method SaveMembership(db: Db, user: User, orgId: Id, role: Role)
    returns (r: Result<Invitation, Error>)
    requires db.Valid()
    requires user.id < db.nextId && orgId < db.nextId
    requires FindMembership(db.tables.memberships, user.id, orgId).None?
    requires Authorization.EnsureAdminCap(db.tables.memberships, orgId, role).Pass?
    modifies db`tables, db`nextId
    ensures db.Valid()
    ensures r == Ok(Invitation(user.id, user.email, user.displayName, role))
    ensures db.tables == old(db.tables).(memberships := old(db.tables.memberships) + [Membership(old(db.nextId), user.id, orgId, role)])
  {
    var membershipId := db.NewId();
    var m := Membership(membershipId, user.id, orgId, role);
    InvariantsMonotone(db.tables, db.nextId - 1, db.nextId);
    AddMembershipKeeps(db.tables, db.nextId, m);
    var saved := db.SaveChanges(db.tables.(memberships := db.tables.memberships + [m]));
    r := Ok(Invitation(user.id, user.email, user.displayName, role));
  }

  // Changing a member's role.

  /** What `UpdateMemberRole` decides: the position of the membership to
      change and its new role, or the response that refuses the change. */
  function RoleChange(t: Tables, ctx: RequestContext, userId: Id, roleText: string): (r: Result<(nat, Role), Error>)
    ensures r.Ok? ==>
      var (i, role) := r.value;
      && i < |t.memberships|
      && t.memberships[i].userId == userId && t.memberships[i].orgId == ctx.orgId
      && ctx.role == Owner
      && t.memberships[i].role != Owner && role != Owner
      && Enums.ParseRole(roleText) == Some(role)
      && Authorization.EnsureAdminCap(t.memberships, ctx.orgId, role).Pass?
    ensures FindMembership(t.memberships, userId, ctx.orgId).None? ==> r.Err?
    ensures var i := FindMembership(t.memberships, userId, ctx.orgId);
      var role := Enums.ParseRole(roleText);
      ctx.role == Owner && i.Some? && t.memberships[i.value].role != Owner
      && role.Some? && role.value != Owner && Authorization.EnsureAdminCap(t.memberships, ctx.orgId, role.value).Pass?
      ==> r == Ok((i.value, role.value))
  {
    var rank := Authorization.EnsureAtLeast(ctx.role, Owner);
    var found := FindMembership(t.memberships, userId, ctx.orgId);
    if rank.Fail? then Err(rank.error)
    else if found.None? then Err(NotFound)
    else if t.memberships[found.value].role == Owner then Err(BadRequest("CannotChangeOwnerRole"))
    else
      var role := Enums.ParseRole(roleText);
      if role.None? then Err(InvalidArgument(NotAnEnumValue(roleText)))
      else if role.value == Owner then Err(BadRequest("CannotAssignOwner"))
      else
        var cap := Authorization.EnsureAdminCap(t.memberships, ctx.orgId, role.value);
        if cap.Fail? then Err(cap.error) else Ok((found.value, role.value))
  }

  /** The refusals of a role change: only an Owner may change roles, the
      Owner's own role is fixed, Owner is never assigned, and an Admin is
      refused once the organization has three admin-level members. */
  lemma RoleChangeRefusals(t: Tables, ctx: RequestContext, userId: Id, roleText: string)
    ensures ctx.role != Owner ==> RoleChange(t, ctx, userId, roleText) == Err(Unauthorized("Insufficient permissions."))
    ensures var i := FindMembership(t.memberships, userId, ctx.orgId);
      ctx.role == Owner && i.Some? && t.memberships[i.value].role == Owner ==>
        RoleChange(t, ctx, userId, roleText) == Err(BadRequest("CannotChangeOwnerRole"))
    ensures var i := FindMembership(t.memberships, userId, ctx.orgId);
      ctx.role == Owner && i.Some? && t.memberships[i.value].role != Owner && Enums.ParseRole(roleText) == Some(Owner) ==>
        RoleChange(t, ctx, userId, roleText) == Err(BadRequest("CannotAssignOwner"))
    ensures ctx.role == Owner && FindMembership(t.memberships, userId, ctx.orgId).None? ==>
      RoleChange(t, ctx, userId, roleText) == Err(NotFound)
    ensures var i := FindMembership(t.memberships, userId, ctx.orgId);
      ctx.role == Owner && i.Some? && t.memberships[i.value].role != Owner && Enums.ParseRole(roleText).None? ==>
        RoleChange(t, ctx, userId, roleText) == Err(InvalidArgument(NotAnEnumValue(roleText)))
    ensures var i := FindMembership(t.memberships, userId, ctx.orgId);
      var role := Enums.ParseRole(roleText);
      ctx.role == Owner && i.Some? && t.memberships[i.value].role != Owner && role.Some? && role.value != Owner
      && Authorization.EnsureAdminCap(t.memberships, ctx.orgId, role.value).Fail? ==>
        RoleChange(t, ctx, userId, roleText) == Err(Authorization.EnsureAdminCap(t.memberships, ctx.orgId, role.value).error)
  {
  }

  /** `UpdateMemberRole(userId, request)`. Owners stay Owners and nobody
      becomes one. */
  method UpdateMemberRole(db: Db, ctx: RequestContext, userId: Id, roleText: string) returns (r: Result<Membership, Error>)
    requires db.Valid()
    modifies db`tables
    ensures db.Valid()
    ensures var c := RoleChange(old(db.tables), ctx, userId, roleText);
      && (c.Err? ==> r == Err(c.error) && db.tables == old(db.tables))
      && (c.Ok? ==>
            var m := old(db.tables.memberships)[c.value.0].(role := c.value.1);
            && r == Ok(m)
            && db.tables == old(db.tables).(memberships := old(db.tables.memberships)[c.value.0 := m]))
    ensures |db.tables.memberships| == |old(db.tables.memberships)|
    ensures forall k :: 0 <= k < |db.tables.memberships| ==>
      (db.tables.memberships[k].role == Owner <==> old(db.tables.memberships)[k].role == Owner)
  {
    var change := RoleChange(db.tables, ctx, userId, roleText);
    if change.Err? {
      return Err(change.error);
    }
    var (i, role) := change.value;
    var m := db.tables.memberships[i].(role := role);
    ReplaceMembership(db, i, m);
    r := Ok(m);
  }

  // Removing a member.

  /** What `RemoveMember` decides: the position of the membership to remove,
      or the response that refuses it. */
  function Removal(t: Tables, ctx: RequestContext, userId: Id): (r: Result<nat, Error>)
    ensures r.Ok? ==>
      && r.value < |t.memberships|
      && t.memberships[r.value].userId == userId && t.memberships[r.value].orgId == ctx.orgId
      && ctx.role != Role.User
      && t.memberships[r.value].role != Owner
      && (ctx.role == Admin ==> t.memberships[r.value].role == Role.User)
    ensures FindMembership(t.memberships, userId, ctx.orgId).None? ==> r.Err?
  {
    var rank := Authorization.EnsureAtLeast(ctx.role, Admin);
    var found := FindMembership(t.memberships, userId, ctx.orgId);
    if rank.Fail? then Err(rank.error)
    else if found.None? then Err(NotFound)
    else if t.memberships[found.value].role == Owner then Err(BadRequest("CannotRemoveOwner"))
    else if ctx.role == Admin && t.memberships[found.value].role == Admin then Err(BadRequest("AdminCannotRemoveAdmin"))
    else Ok(found.value)
  }

  /** An Owner may remove any Admin or User member; an Admin may remove
      exactly the User members. */
  lemma RemovalAllowed(t: Tables, ctx: RequestContext, userId: Id)
    requires FindMembership(t.memberships, userId, ctx.orgId).Some?
    ensures var m := t.memberships[FindMembership(t.memberships, userId, ctx.orgId).value];
      Removal(t, ctx, userId).Ok? <==>
        (ctx.role == Owner && m.role != Owner) || (ctx.role == Admin && m.role == Role.User)
  {
  }

  /** `RemoveMember(userId)`: removes exactly the decided membership and
      never an Owner's. */
  method RemoveMember(db: Db, ctx: RequestContext, userId: Id) returns (r: Outcome<Error>)
    requires db.Valid()
    modifies db`tables
    ensures db.Valid()
    ensures var d := Removal(old(db.tables), ctx, userId);
      && (d.Err? ==> r == Fail(d.error) && db.tables == old(db.tables))
      && (d.Ok? ==> r == Pass && db.tables == old(db.tables).(memberships :=
            old(db.tables.memberships)[..d.value] + old(db.tables.memberships)[d.value + 1..]))
    ensures forall m :: m in old(db.tables.memberships) && m.role == Owner ==> m in db.tables.memberships
  {
    var decision := Removal(db.tables, ctx, userId);
    if decision.Err? {
      return Fail(decision.error);
    }
    var i := decision.value;
    RemoveMembership(db, i);
    r := Pass;
  }
}

/** Accounts: registration, login, email verification and password reset.

    Registration creates a user, a Free organization it owns and a
    verification token valid for 24 hours. Login refuses invited users that
    have not set a password and enters the user's Owner membership first.
    A verification token is deleted when used; a reset token, valid for one
    hour, is marked used. Either works once.

    Password hashing and checking, the random tokens and the clock are
    parameters: `hash` is the stored form of the new password, `token` the
    random text, `verify` the hash check, `now` the current instant. */
module Auth {
  import opened Wrappers
  import opened Domain
  import opened Store
  import Authorization
  import Text

  /** What login and registration answer: an error code, or the signed-in
      user, its organization and its role there. */
  datatype AuthResult =
    | AuthFail(code: string)
    | AuthOk(userId: Id, email: string, displayName: string, language: string, orgId: Id, role: Role)

  const VerificationLifetime: int := 24 * Hour
  const ResetLifetime: int := Hour

  /** `Users.FindAsync(id)`, as a position. */
  function FindUser(users: seq<User>, id: Id): (r: Option<nat>)
    ensures r.Some? ==> r.value < |users| && users[r.value].id == id
    ensures r.None? <==> forall k :: 0 <= k < |users| ==> users[k].id != id
  {
    if users == [] then None
    else
      var i := |users| - 1;
      var r := FindUser(users[..i], id);
      if r.Some? then r else if users[i].id == id then Some(i) else None
  }

  // Registration.

  /** The four rows a registration adds, the user's id being `n`, the
      organization's `n + 1` and the membership's `n + 2`. */
  datatype Registration = Registration(user: User, org: Organization, membership: Membership, token: EmailVerificationToken)

  function NewRegistration(
    n: nat, email: string, hash: string, displayName: Option<string>, organizationName: Option<string>,
    language: string, token: string, now: Time): (r: Registration)
    ensures r.user.id == n && r.user.email == email && !r.user.isEmailVerified
    ensures r.org.id == n + 1 && r.org.plan == Free && r.org.trialEndsAt.None? && PlanConsistent(r.org)
    ensures r.membership == Membership(n + 2, n, n + 1, Owner)
    ensures r.token == EmailVerificationToken(n, token, now + VerificationLifetime)
  {
    var user := User.User(n, email, hash, displayName.GetOr(email), language, false);
    var org := Organization(n + 1, organizationName.GetOr("My Organization"), Free, None, "#5E35B1", now);
    Registration(user, org, Membership(n + 2, n, n + 1, Owner), EmailVerificationToken(n, token, now + VerificationLifetime))
  }

  function Registered(t: Tables, reg: Registration): Tables {
    t.(users := t.users + [reg.user],
       organizations := t.organizations + [reg.org],
       memberships := t.memberships + [reg.membership],
       emailTokens := t.emailTokens + [reg.token])
  }

  /** A registration under fresh identifiers, for an email no user has and a
      token no pending verification has, keeps every index and invariant. */
  lemma RegisteredKeeps(t: Tables, n: nat, reg: Registration)
    requires Indexed(t) && Invariants(t, n)
    requires reg.user.id == n && reg.org.id == n + 1 && reg.membership == Membership(n + 2, n, n + 1, Owner)
    requires PlanConsistent(reg.org)
    requires FindUserByEmail(t.users, reg.user.email).None?
    requires forall k :: 0 <= k < |t.emailTokens| ==> t.emailTokens[k].token != reg.token.token
    ensures Indexed(Registered(t, reg)) && Invariants(Registered(t, reg), n + 3)
  {
    var after := Registered(t, reg);
    Authorization.AdminLevelCountZero(t.memberships, n + 1);
    AdminCapAfterAdd(t.memberships, reg.membership);
    assert forall k :: 0 <= k < |t.memberships| ==> t.memberships[k] in t.memberships;
    assert UniqueMemberships(after.memberships);
    assert UniqueEmails(after.users);
    assert UniqueEmailTokens(after.emailTokens);
  }

  /** `RegisterAsync(request, preferredLanguage)`: refuses a known email;
      otherwise adds the user, its Free organization with no trial, its Owner
      membership and a verification token, and signs the user in. A token
      that collides with a pending one fails the save and changes nothing. */
  method Register(
    db: Db, email: string, hash: string, displayName: Option<string>, organizationName: Option<string>,
    language: string, token: string, now: Time)
    returns (r: Result<AuthResult, Error>)
    requires db.Valid()
    modifies db`tables, db`nextId
    ensures db.Valid()
    ensures FindUserByEmail(old(db.tables.users), email).Some? ==>
      r == Ok(AuthFail("EmailAlreadyExists")) && db.tables == old(db.tables)
    ensures FindUserByEmail(old(db.tables.users), email).None? ==>
      var reg := NewRegistration(old(db.nextId), email, hash, displayName, organizationName, language, token, now);
      && (r.Ok? <==> forall k :: 0 <= k < |old(db.tables.emailTokens)| ==> old(db.tables.emailTokens)[k].token != token)
      && (r.Ok? ==>
            && r.value == AuthOk(reg.user.id, email, reg.user.displayName, language, reg.org.id, Owner)
            && db.tables == Registered(old(db.tables), reg))
      && (r.Err? ==> r.error == DuplicateKey && db.tables == old(db.tables))
  {
    if FindUserByEmail(db.tables.users, email).Some? {
      return Ok(AuthFail("EmailAlreadyExists"));
    }
    r := AddRegistration(db, email, hash, displayName, organizationName, language, token, now);
  }

  /** The second half of `RegisterAsync`, for an email no user has: issues
      the three identifiers, stages the four rows and saves them. */
  method AddRegistration(
    db: Db, email: string, hash: string, displayName: Option<string>, organizationName: Option<string>,
    language: string, token: string, now: Time)
    returns (r: Result<AuthResult, Error>)
    requires db.Valid() && FindUserByEmail(db.tables.users, email).None?
    modifies db`tables, db`nextId
    ensures db.Valid()
    ensures var reg := NewRegistration(old(db.nextId), email, hash, displayName, organizationName, language, token, now);
      && (r.Ok? <==> forall k :: 0 <= k < |old(db.tables.emailTokens)| ==> old(db.tables.emailTokens)[k].token != token)
      && (r.Ok? ==>
            && r.value == AuthOk(reg.user.id, email, reg.user.displayName, language, reg.org.id, Owner)
            && db.tables == Registered(old(db.tables), reg))
      && (r.Err? ==> r.error == DuplicateKey && db.tables == old(db.tables))
  {
    var userId := db.NewIds(3);
    var orgId := userId + 1;
    var reg := NewRegistration(userId, email, hash, displayName, organizationName, language, token, now);
    var saved := SaveRegistration(db, reg);
    if saved.Fail? {
      return Err(saved.error);
    }
    r := Ok(AuthOk(userId, email, reg.user.displayName, language, orgId, Owner));
  }

  /** Stages the four rows of a registration issued the last three
      identifiers and saves them: the save fails, changing nothing, exactly
      when the token collides with a pending one. */
  method SaveRegistration(db: Db, reg: Registration) returns (r: Outcome<Error>)
    requires db.Valid() && db.nextId >= 3 && Invariants(db.tables, db.nextId - 3)
    requires FindUserByEmail(db.tables.users, reg.user.email).None?
    requires reg.user.id == db.nextId - 3 && reg.org.id == db.nextId - 2
    requires reg.membership == Membership(db.nextId - 1, db.nextId - 3, db.nextId - 2, Owner)
    requires PlanConsistent(reg.org)
    modifies db`tables
    ensures db.Valid()
    ensures r.Pass? <==> forall k :: 0 <= k < |old(db.tables.emailTokens)| ==> old(db.tables.emailTokens)[k].token != reg.token.token
    ensures r.Pass? ==> db.tables == Registered(old(db.tables), reg)
    ensures r.Fail? ==> r.error == DuplicateKey && db.tables == old(db.tables)
  {
    RegistrationSaves(db.tables, db.nextId - 3, reg);
    r := db.SaveChanges(Registered(db.tables, reg));
  }

  /** A registration keeps the invariants, and the indexes exactly when its
      token is new. */
  lemma RegistrationSaves(t: Tables, n: nat, reg: Registration)
    requires Indexed(t) && Invariants(t, n)
    requires reg.user.id == n && reg.org.id == n + 1 && reg.membership == Membership(n + 2, n, n + 1, Owner)
    requires PlanConsistent(reg.org)
    requires FindUserByEmail(t.users, reg.user.email).None?
    ensures Invariants(Registered(t, reg), n + 3)
    ensures Indexed(Registered(t, reg)) <==> forall k :: 0 <= k < |t.emailTokens| ==> t.emailTokens[k].token != reg.token.token
  {
    if forall k :: 0 <= k < |t.emailTokens| ==> t.emailTokens[k].token != reg.token.token {
      RegisteredKeeps(t, n, reg);
    } else {
      var staged := Registered(t, reg);
      assert !UniqueEmailTokens(staged.emailTokens) by {
        var k :| 0 <= k < |t.emailTokens| && t.emailTokens[k].token == reg.token.token;
        assert staged.emailTokens[k].token == staged.emailTokens[|t.emailTokens|].token;
      }
      InvariantsAfterRegistration(t, n, reg);
    }
  }

  /** The invariants alone survive a registration, whatever the indexes say. */
  lemma InvariantsAfterRegistration(t: Tables, n: nat, reg: Registration)
    requires Invariants(t, n)
    requires reg.user.id == n && reg.org.id == n + 1 && reg.membership == Membership(n + 2, n, n + 1, Owner)
    requires PlanConsistent(reg.org)
    ensures Invariants(Registered(t, reg), n + 3)
  {
    Authorization.AdminLevelCountZero(t.memberships, n + 1);
    AdminCapAfterAdd(t.memberships, reg.membership);
  }

  // Login.

  /** The membership login enters: the user's first Owner membership, else
      the user's first membership. */
  function LoginMembership(ms: seq<Membership>, userId: Id): (r: Option<nat>)
    ensures r.Some? ==> r.value < |ms| && ms[r.value].userId == userId
    ensures r.None? <==> forall k :: 0 <= k < |ms| ==> ms[k].userId != userId
    ensures r.Some? && ms[r.value].role != Owner ==> forall k :: 0 <= k < |ms| && ms[k].userId == userId ==> ms[k].role != Owner
  {
    var owner := FirstMembership(ms, userId, true);
    if owner.Some? then owner else FirstMembership(ms, userId, false)
  }

  /** The first membership of the user, among its Owner memberships only when
      `ownerOnly`. */
  function FirstMembership(ms: seq<Membership>, userId: Id, ownerOnly: bool): (r: Option<nat>)
    ensures r.Some? ==> r.value < |ms| && ms[r.value].userId == userId && (ownerOnly ==> ms[r.value].role == Owner)
    ensures r.None? <==> forall k :: 0 <= k < |ms| ==> ms[k].userId != userId || (ownerOnly && ms[k].role != Owner)
  {
    if ms == [] then None
    else
      var i := |ms| - 1;
      var r := FirstMembership(ms[..i], userId, ownerOnly);
      if r.Some? then r
      else if ms[i].userId == userId && (!ownerOnly || ms[i].role == Owner) then Some(i)
      else None
  }

  /** An invited user that has not chosen a password yet. */
  predicate PendingInvite(hash: string) {
    Text.StartsWith(hash, "pending") || hash == ""
  }

  /** `LoginAsync(request)`: nothing for an unknown email or a wrong
      password, a refusal for a pending invitation or a user without
      organization, and otherwise the user in the membership it enters. */
  function Login(t: Tables, email: string, password: string, verify: (string, string) -> bool): (r: Option<AuthResult>)
    ensures FindUserByEmail(t.users, email).None? ==> r.None?
    ensures r.Some? && r.value.AuthOk? ==>
      var u := t.users[FindUserByEmail(t.users, email).value];
      var m := LoginMembership(t.memberships, u.id);
      && !PendingInvite(u.passwordHash) && verify(password, u.passwordHash)
      && m.Some? && r.value == AuthOk(u.id, u.email, u.displayName, u.preferredLanguage, t.memberships[m.value].orgId, t.memberships[m.value].role)
    ensures FindUserByEmail(t.users, email).Some? && PendingInvite(t.users[FindUserByEmail(t.users, email).value].passwordHash)
      ==> r == Some(AuthFail("AccountPendingInvite"))
    ensures var found := FindUserByEmail(t.users, email);
      found.Some? && !PendingInvite(t.users[found.value].passwordHash) ==>
        var u := t.users[found.value];
        var m := LoginMembership(t.memberships, u.id);
        && (!verify(password, u.passwordHash) ==> r.None?)
        && (verify(password, u.passwordHash) && m.None? ==> r == Some(AuthFail("NoOrganization")))
        && (verify(password, u.passwordHash) && m.Some? ==>
              r == Some(AuthOk(u.id, u.email, u.displayName, u.preferredLanguage, t.memberships[m.value].orgId, t.memberships[m.value].role)))
  {
    var found := FindUserByEmail(t.users, email);
    if found.None? then None
    else
      var u := t.users[found.value];
      if PendingInvite(u.passwordHash) then Some(AuthFail("AccountPendingInvite"))
      else if !verify(password, u.passwordHash) then None
      else
        var m := LoginMembership(t.memberships, u.id);
        if m.None? then Some(AuthFail("NoOrganization"))
        else Some(AuthOk(u.id, u.email, u.displayName, u.preferredLanguage, t.memberships[m.value].orgId, t.memberships[m.value].role))
  }

  /** A user that owns some organization logs in as an Owner. */
  lemma LoginPrefersOwner(t: Tables, email: string, password: string, verify: (string, string) -> bool, k: nat)
    requires Login(t, email, password, verify).Some? && Login(t, email, password, verify).value.AuthOk?
    requires k < |t.memberships| && t.memberships[k].role == Owner
    requires t.memberships[k].userId == t.users[FindUserByEmail(t.users, email).value].id
    ensures Login(t, email, password, verify).value.role == Owner
  {
  }

  /** Right after registering, the user logs in with the password whose
      hash was stored, into the organization it just created, as its Owner. */
  lemma RegisteredUserLogsIn(t: Tables, n: nat, reg: Registration, password: string, verify: (string, string) -> bool)
    requires Invariants(t, n)
    requires reg == NewRegistration(n, reg.user.email, reg.user.passwordHash, Some(reg.user.displayName), Some(reg.org.name),
                                    reg.user.preferredLanguage, reg.token.token, reg.org.updatedAt)
    requires FindUserByEmail(t.users, reg.user.email).None?
    requires !PendingInvite(reg.user.passwordHash) && verify(password, reg.user.passwordHash)
    ensures Login(Registered(t, reg), reg.user.email, password, verify)
         == Some(AuthOk(n, reg.user.email, reg.user.displayName, reg.user.preferredLanguage, n + 1, Owner))
  {
    var after := Registered(t, reg);
    FindUserByEmailAppend(t.users, reg.user);
    var ms := after.memberships;
    assert ms[|t.memberships|] == reg.membership;
    assert forall k :: 0 <= k < |t.memberships| ==> ms[k] in t.memberships && ms[k].userId < n;
  }

  /** A new email is found at the position it was appended at. */
  lemma FindUserByEmailAppend(users: seq<User>, u: User)
    requires FindUserByEmail(users, u.email).None?
    ensures FindUserByEmail(users + [u], u.email) == Some(|users|)
  {
    if users != [] {
      assert (users + [u])[1..] == users[1..] + [u];
      FindUserByEmailAppend(users[1..], u);
    }
  }

  // Email verification.

  /** The verification token `VerifyEmailAsync` finds: the first row with
      the text that has not expired at `now`. */
  function LiveEmailToken(tokens: seq<EmailVerificationToken>, token: string, now: Time): (r: Option<nat>)
    ensures r.Some? ==> r.value < |tokens| && tokens[r.value].token == token && tokens[r.value].expiresAt > now
    ensures r.None? <==> forall k :: 0 <= k < |tokens| ==> tokens[k].token != token || tokens[k].expiresAt <= now
  {
    if tokens == [] then None
    else
      var i := |tokens| - 1;
      var r := LiveEmailToken(tokens[..i], token, now);
      if r.Some? then r else if tokens[i].token == token && tokens[i].expiresAt > now then Some(i) else None
  }

  /** The tables after a verification: the user verified, the token row
      deleted. */
  function Verified(t: Tables, i: nat, j: nat): Tables
    requires i < |t.emailTokens| && j < |t.users|
  {
    t.(users := t.users[j := t.users[j].(isEmailVerified := true)],
       emailTokens := t.emailTokens[..i] + t.emailTokens[i + 1..])
  }

  /** The positions of the token and the user a verification acts on, or
      nothing when it answers false. */
  function VerifyStep(t: Tables, token: string, now: Time): (r: Option<(nat, nat)>)
    ensures r.Some? ==> r.value.0 < |t.emailTokens| && r.value.1 < |t.users|
    ensures r.Some? ==> var (i, j) := r.value;
      && t.emailTokens[i].token == token && t.emailTokens[i].expiresAt > now
      && t.users[j].id == t.emailTokens[i].userId
    ensures LiveEmailToken(t.emailTokens, token, now).None? ==> r.None?
  {
    var i := LiveEmailToken(t.emailTokens, token, now);
    if i.None? then None
    else
      var j := FindUser(t.users, t.emailTokens[i.value].userId);
      if j.None? then None else Some((i.value, j.value))
  }

  lemma UniqueEmailTokensRemove(ts: seq<EmailVerificationToken>, i: nat)
    requires i < |ts| && UniqueEmailTokens(ts)
    ensures UniqueEmailTokens(ts[..i] + ts[i + 1..])
    ensures forall e :: e in ts[..i] + ts[i + 1..] ==> e.token != ts[i].token
  {
    var after := ts[..i] + ts[i + 1..];
    forall a | 0 <= a < |after|
      ensures after[a] == ts[if a < i then a else a + 1]
    {
    }
  }

  /** A verification keeps every index and invariant. */
  lemma VerifiedKeeps(t: Tables, n: nat, i: nat, j: nat)
    requires Indexed(t) && Invariants(t, n)
    requires i < |t.emailTokens| && j < |t.users|
    ensures Indexed(Verified(t, i, j)) && Invariants(Verified(t, i, j), n)
  {
    UniqueEmailTokensRemove(t.emailTokens, i);
    var users := Verified(t, i, j).users;
    assert forall k :: 0 <= k < |users| ==> users[k].email == t.users[k].email && users[k].id == t.users[k].id;
    assert forall u :: u in users ==> u == users[j] || u in t.users;
  }

  /** `VerifyEmailAsync(token)`: a live token of an existing user verifies
      the user and is deleted. */
  method VerifyEmail(db: Db, token: string, now: Time) returns (ok: bool)
    requires db.Valid()
    modifies db`tables
    ensures db.Valid()
    ensures var step := VerifyStep(old(db.tables), token, now);
      && (ok <==> step.Some?)
      && (db.tables == if ok then Verified(old(db.tables), step.value.0, step.value.1) else old(db.tables))
  {
    var step := VerifyStep(db.tables, token, now);
    if step.None? {
      return false;
    }
    var (i, j) := step.value;
    VerifiedKeeps(db.tables, db.nextId, i, j);
    var saved := db.SaveChanges(Verified(db.tables, i, j));
    ok := true;
  }

  /** A verification token works once: after it verified its user, the same
      token verifies nothing, at any time. */
  lemma VerifyOnce(t: Tables, token: string, now: Time, later: Time)
    requires UniqueEmailTokens(t.emailTokens)
    requires VerifyStep(t, token, now).Some?
    ensures var (i, j) := VerifyStep(t, token, now).value;
      VerifyStep(Verified(t, i, j), token, later).None?
  {
    var (i, j) := VerifyStep(t, token, now).value;
    UniqueEmailTokensRemove(t.emailTokens, i);
  }

  /** A token registered at `now` verifies until, and not after, 24 hours
      later, provided it is the only row with its text. */
  lemma VerificationExpires(t: Tables, reg: Registration, now: Time, at: Time)
    requires reg.token.expiresAt == now + VerificationLifetime
    requires forall k :: 0 <= k < |t.emailTokens| ==> t.emailTokens[k].token != reg.token.token
    ensures at < now + VerificationLifetime ==> LiveEmailToken(Registered(t, reg).emailTokens, reg.token.token, at).Some?
    ensures at >= now + VerificationLifetime ==> VerifyStep(Registered(t, reg), reg.token.token, at).None?
  {
    var ts := Registered(t, reg).emailTokens;
    assert ts[|t.emailTokens|] == reg.token;
    assert forall k :: 0 <= k < |t.emailTokens| ==> ts[k] == t.emailTokens[k];
  }

  // Password reset.

  /** `RequestPasswordResetAsync(email)`: for a known user that is not a
      pending invitation, a reset token valid for one hour. The answer is
      true in every case, so it does not reveal whether the email is known;
      only a token that collides with an existing one fails the save. */
  method RequestPasswordReset(db: Db, email: string, token: string, now: Time) returns (r: Result<bool, Error>)
    requires db.Valid()
    modifies db`tables
    ensures db.Valid()
    ensures r.Ok? ==> r.value
    ensures var u := FindUserByEmail(old(db.tables.users), email);
      if u.None? || Text.StartsWith(old(db.tables.users)[u.value].passwordHash, "pending") then
        r == Ok(true) && db.tables == old(db.tables)
      else
        var added := PasswordResetToken(old(db.tables.users)[u.value].id, token, now + ResetLifetime, false);
        && (r.Ok? <==> forall k :: 0 <= k < |old(db.tables.resetTokens)| ==> old(db.tables.resetTokens)[k].token != token)
        && (r.Ok? ==> db.tables == old(db.tables).(resetTokens := old(db.tables.resetTokens) + [added]))
        && (r.Err? ==> r.error == DuplicateKey && db.tables == old(db.tables))
  {
    var u := FindUserByEmail(db.tables.users, email);
    if u.None? || Text.StartsWith(db.tables.users[u.value].passwordHash, "pending") {
      return Ok(true);
    }
    var added := PasswordResetToken(db.tables.users[u.value].id, token, now + ResetLifetime, false);
    var staged := db.tables.(resetTokens := db.tables.resetTokens + [added]);
    if forall k :: 0 <= k < |db.tables.resetTokens| ==> db.tables.resetTokens[k].token != token {
      assert UniqueResetTokens(staged.resetTokens);
    } else {
      assert !UniqueResetTokens(staged.resetTokens) by {
        var k :| 0 <= k < |db.tables.resetTokens| && db.tables.resetTokens[k].token == token;
        assert staged.resetTokens[k].token == staged.resetTokens[|db.tables.resetTokens|].token;
      }
    }
    var saved := db.SaveChanges(staged);
    if saved.Fail? {
      return Err(saved.error);
    }
    r := Ok(true);
  }

  /** The reset token `ResetPasswordAsync` finds: the first unused row with
      the text that has not expired at `now`. */
  function LiveResetToken(tokens: seq<PasswordResetToken>, token: string, now: Time): (r: Option<nat>)
    ensures r.Some? ==> r.value < |tokens| && tokens[r.value].token == token && !tokens[r.value].used && tokens[r.value].expiresAt > now
    ensures r.None? <==> forall k :: 0 <= k < |tokens| ==> tokens[k].token != token || tokens[k].used || tokens[k].expiresAt <= now
  {
    if tokens == [] then None
    else
      var i := |tokens| - 1;
      var r := LiveResetToken(tokens[..i], token, now);
      if r.Some? then r
      else if tokens[i].token == token && !tokens[i].used && tokens[i].expiresAt > now then Some(i)
      else None
  }

  /** The tables after a reset: the user's new hash, the token marked used. */
  function Reset(t: Tables, i: nat, j: nat, hash: string): Tables
    requires i < |t.resetTokens| && j < |t.users|
  {
    t.(users := t.users[j := t.users[j].(passwordHash := hash)],
       resetTokens := t.resetTokens[i := t.resetTokens[i].(used := true)])
  }

  function ResetStep(t: Tables, token: string, now: Time): (r: Option<(nat, nat)>)
    ensures r.Some? ==> r.value.0 < |t.resetTokens| && r.value.1 < |t.users|
    ensures r.Some? ==> var (i, j) := r.value;
      && t.resetTokens[i].token == token && !t.resetTokens[i].used && t.resetTokens[i].expiresAt > now
      && t.users[j].id == t.resetTokens[i].userId
    ensures LiveResetToken(t.resetTokens, token, now).None? ==> r.None?
  {
    var i := LiveResetToken(t.resetTokens, token, now);
    if i.None? then None
    else
      var j := FindUser(t.users, t.resetTokens[i.value].userId);
      if j.None? then None else Some((i.value, j.value))
  }

  /** A reset keeps every index and invariant. */
  lemma ResetKeeps(t: Tables, n: nat, i: nat, j: nat, hash: string)
    requires Indexed(t) && Invariants(t, n)
    requires i < |t.resetTokens| && j < |t.users|
    ensures Indexed(Reset(t, i, j, hash)) && Invariants(Reset(t, i, j, hash), n)
  {
    var after := Reset(t, i, j, hash);
    assert forall k :: 0 <= k < |after.users| ==> after.users[k].email == t.users[k].email && after.users[k].id == t.users[k].id;
    assert forall u :: u in after.users ==> u == after.users[j] || u in t.users;
    assert forall k :: 0 <= k < |after.resetTokens| ==> after.resetTokens[k].token == t.resetTokens[k].token;
  }

  /** `ResetPasswordAsync(token, newPassword)`: a live unused token of an
      existing user sets the user's password hash and is marked used. */
  method ResetPassword(db: Db, token: string, hash: string, now: Time) returns (ok: bool)
    requires db.Valid()
    modifies db`tables
    ensures db.Valid()
    ensures var step := ResetStep(old(db.tables), token, now);
      && (ok <==> step.Some?)
      && (db.tables == if ok then Reset(old(db.tables), step.value.0, step.value.1, hash) else old(db.tables))
  {
    var step := ResetStep(db.tables, token, now);
    if step.None? {
      return false;
    }
    var (i, j) := step.value;
    ResetKeeps(db.tables, db.nextId, i, j, hash);
    var saved := db.SaveChanges(Reset(db.tables, i, j, hash));
    ok := true;
  }

  /** A reset token works once: after it reset a password, the same token
      resets nothing, at any time. */
  lemma ResetOnce(t: Tables, token: string, now: Time, later: Time, hash: string)
    requires UniqueResetTokens(t.resetTokens)
    requires ResetStep(t, token, now).Some?
    ensures var (i, j) := ResetStep(t, token, now).value;
      ResetStep(Reset(t, i, j, hash), token, later).None?
  {
    var (i, j) := ResetStep(t, token, now).value;
    var after := Reset(t, i, j, hash).resetTokens;
    assert forall k :: 0 <= k < |after| && k != i ==> after[k].token != token;
  }

  /** An invited user that never chose a password can neither log in nor
      obtain a reset token: login answers AccountPendingInvite and a reset
      request leaves the store as it was. */
  lemma PendingInviteIsStuck(t: Tables, email: string, password: string, verify: (string, string) -> bool)
    requires FindUserByEmail(t.users, email).Some?
    requires t.users[FindUserByEmail(t.users, email).value].passwordHash == "pending"
    ensures Login(t, email, password, verify) == Some(AuthFail("AccountPendingInvite"))
    ensures Text.StartsWith(t.users[FindUserByEmail(t.users, email).value].passwordHash, "pending")
  {
  }
}

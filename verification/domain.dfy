/** The entities of the quiz-league service: its enumerations, its records and
    the defaults a freshly constructed record carries.

    Guids are modelled as natural numbers issued by the store, `DateTime` as an
    integer count of seconds, and C# `int` columns as the subset type `Int32`. */
module Domain {
  import opened Wrappers

  type Id = nat
  type Time = int

  const Hour: int := 3600
  const Day: int := 24 * Hour

  /** A C# `int`: the width of the score columns. */
  type Int32 = x: int | -0x8000_0000 <= x < 0x8000_0000

  /** The result of unchecked C# `int` arithmetic: the value reduced modulo
      2^32 into the two's-complement range. */
  function Wrap32(x: int): (r: Int32)
    ensures (r - x) % 0x1_0000_0000 == 0
    ensures -0x8000_0000 <= x < 0x8000_0000 ==> r == x
  {
    var m := x % 0x1_0000_0000;
    if m >= 0x8000_0000 then m - 0x1_0000_0000 else m
  }

  /** Declared in this order, so an ascending sort on the role lists Owner
      first. */
  datatype Role = Owner | Admin | User
  datatype Plan = Free | Trial | Premium
  datatype QuizStatus = Draft | Live | Finished
  datatype HelpBehavior = DoubleScore | MarkerOnly
  /** Pending and Completed are the statuses the payment service uses; Failed
      stands for any other status a payment row may hold. */
  datatype PaymentStatus = Pending | Completed | Failed

  /** The position of a role in its enum declaration (its integer value). */
  function RoleOrdinal(r: Role): nat {
    match r
    case Owner => 0
    case Admin => 1
    case User => 2
  }

  /** The columns every tenant-owned row inherits. */
  datatype Tenant = Tenant(orgId: Id, isDeleted: bool, createdAt: Time, updatedAt: Time)

  /** The initial value of the tenant columns of a row constructed at `now`. */
  function NewTenant(orgId: Id, now: Time): Tenant {
    Tenant(orgId, false, now, now)
  }

  datatype User = User(
    id: Id,
    email: string,
    passwordHash: string,
    displayName: string,
    preferredLanguage: string,
    isEmailVerified: bool)

  datatype Organization = Organization(
    id: Id,
    name: string,
    plan: Plan,
    trialEndsAt: Option<Time>,
    primaryColor: string,
    updatedAt: Time)

  /** A trial always carries its end; Free and Premium never do. */
  predicate PlanConsistent(o: Organization) {
    (o.plan == Trial) == o.trialEndsAt.Some?
  }

  const TrialDays: int := 14

  /** An organization as its parameterless constructor leaves it at `now`. */
  function NewOrganization(id: Id, now: Time): (o: Organization)
    ensures o.plan == Trial && o.trialEndsAt == Some(now + TrialDays * Day)
    ensures PlanConsistent(o)
  {
    Organization(id, "", Trial, Some(now + TrialDays * Day), "#5E35B1", now)
  }

  datatype Membership = Membership(id: Id, userId: Id, orgId: Id, role: Role)

  datatype Team = Team(id: Id, meta: Tenant, name: string)
  datatype Category = Category(id: Id, meta: Tenant, name: string)
  datatype League = League(id: Id, meta: Tenant, name: string)

  datatype Quiz = Quiz(
    id: Id,
    meta: Tenant,
    name: string,
    date: Time,
    location: string,
    status: QuizStatus,
    leagueId: Option<Id>)

  /** Keyed by (quiz, category); not a tenant row and not soft-deletable. */
  datatype QuizCategory = QuizCategory(quizId: Id, categoryId: Id, orderIndex: int)

  datatype QuizTeam = QuizTeam(meta: Tenant, quizId: Id, teamId: Id, aliasInQuiz: Option<string>)

  datatype HelpType = HelpType(id: Id, meta: Tenant, name: string, behavior: HelpBehavior)

  datatype HelpUsage = HelpUsage(meta: Tenant, quizId: Id, teamId: Id, helpTypeId: Id)

  datatype ScoreEntry = ScoreEntry(
    meta: Tenant,
    quizId: Id,
    teamId: Id,
    categoryId: Id,
    points: Int32,
    bonusPoints: Int32,
    notes: string,
    isLocked: bool)

  /** A score entry as constructed for (quiz, team, category): unlocked, with
      zero points, zero bonus and empty notes. */
  function NewScoreEntry(orgId: Id, quizId: Id, teamId: Id, categoryId: Id, now: Time): ScoreEntry {
    ScoreEntry(NewTenant(orgId, now), quizId, teamId, categoryId, 0, 0, "", false)
  }

  datatype Payment = Payment(
    id: Id,
    orgId: Id,
    amount: real,
    currency: string,
    status: PaymentStatus,
    plan: Plan,
    externalId: Option<string>,
    createdAt: Time,
    completedAt: Option<Time>)

  datatype EmailVerificationToken = EmailVerificationToken(userId: Id, token: string, expiresAt: Time)
  datatype PasswordResetToken = PasswordResetToken(userId: Id, token: string, expiresAt: Time, used: bool)
  datatype PublicShareToken = PublicShareToken(orgId: Id, quizId: Id, token: string, expiresAt: Option<Time>)

  /** The per-request context: who acts, in which organization, with which
      role, in which language. It is passed explicitly to every operation. */
  datatype RequestContext = RequestContext(userId: Id, orgId: Id, role: Role, language: string)

  /** The ways an operation ends without its result: the exceptions the source
      throws and the error responses its controllers return. */
  datatype Error =
    | Unauthorized(message: string)      // UnauthorizedAccessException
    | InvalidOperation(message: string)  // InvalidOperationException
    | InvalidArgument(message: string)   // ArgumentException
    | NullReference                      // a missing row dereferenced
    | DuplicateKey                       // a unique index rejects the save
    | NotFound                           // 404 response
    | BadRequest(code: string)           // 400 response with an error code
}

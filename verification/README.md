# Quizory core, modelled in Dafny

Quizory is a multi-tenant quiz-league service. Organizations run pub quizzes.
A quiz has teams and categories, and each team gets one score entry per
category. Teams can play "helps" (jokers): a help type whose behaviour is
`DoubleScore` doubles the team's total. The service ranks the teams, keeps
league tables and per-team histories, and shares a read-only leaderboard
behind a random token. It also exports quizzes and leagues to a spreadsheet
and imports quizzes from one.

Organizations hold members with the roles Owner, Admin and User. At most three
members may be admin-level (Owner or Admin). Each organization has a
subscription plan: Free, Trial or Premium. An expired trial counts as Free.
Free organizations may create five quizzes a month, may not use gated
features, and are limited to one member. Users register, verify their email,
log in and reset their password with one-time tokens. Owners pay for Premium
through payments that are confirmed exactly once.

The model is split into modules that follow the service's layers:

- `Domain`: the entities. Each one is a `datatype` value, with tenant
  metadata (organization, soft-delete flag, time stamps).
- `Store`: the database context. It is a `class Db` with one `seq` field per
  table and a counter that stands in for `Guid.NewGuid()`.
  - `SaveChanges` commits a staged set of tables exactly when every unique
    index the context declares still holds (`Indexed`), as a relational
    database enforces them. Otherwise it fails with a duplicate-key error and
    keeps the old tables. (The in-memory provider the application configures
    enforces only primary keys; see "Left out".)
  - `Valid()` is that predicate plus the referential facts the services rely
    on. Among these facts is the admin cap: at most three admin-level members
    per organization.
- `Authorization`, `Subscription`, `Scoring`, `Statistics`, `Share`,
  `Payments` and `Auth`: one module per service class.
- `Quizzes` and `Organizations`: one module per controller.
- Read-only queries are functions over the tables. Operations that change the
  store are methods that modify the `Db`. Each method is proved against a
  function that states the intended new state.
- `Sheets`, `ExcelExport`, `ExcelImport` and `Reimport`: the spreadsheet
  side. A worksheet is a map from (row, column) to a cell. Export writes that
  map cell by cell. Import reads the map, then finds or creates categories and
  teams by name.
- `Reimport` proves what the importer does with the workbooks the exporter and
  the template produce. Export and import are not inverses:
  - importing an exported quiz adds a category named "Total";
  - importing the template drops its last category;
  - a repeated category or team name makes the import fail (for a team
    name, through a declared unique index; see "Left out").
- `Text`, `Enums` and `Ordering`: the framework behaviour the services rely
  on. This covers `Trim` (with .NET's white-space characters),
  `ToUpperInvariant` (for ASCII letters), case-insensitive
  `Enum.Parse`/`TryParse` (names and signed numbers), and LINQ's stable
  `OrderByDescending`, `Where`, `Count`, `Skip` and `Take`.

Time is an integer count of seconds. Each operation receives the current time,
the start of the month, the freshly generated random token and the password
hash as parameters. A dictionary the source builds (`ToDictionary`,
`Dictionary<Guid,int>`) is a sequence of distinct `(team, points)` standings
in insertion order.

`Organization.TrialEndsAtUtc` is declared non-nullable in
`Domain/Entities.cs:32`. `SubscriptionService.cs:35` tests it with `HasValue`,
and `AuthService.cs:46` assigns it `null`. The model follows these services
and makes the field optional.

## Model

| member | source | states |
|---|---|---|
| `Domain.NewOrganization` | backend/Quizory.Api/Domain/Entities.cs:27-34 | A new organization starts on a Trial that ends 14 days after creation, and plan and trial end agree |
| `Domain.Wrap32` | backend/Quizory.Api/Services/StatisticsService.cs:28 | Unchecked 32-bit `int` arithmetic: the result agrees with the exact value modulo 2^32, and equals it when it is in range |
| `Enums.ParseRole` | backend/Quizory.Api/Controllers/OrganizationsController.cs:67 | A role text parses to a role exactly when, after trimming, it names that role case-insensitively or gives its number |
| `Enums.ParsePlan` | backend/Quizory.Api/Services/PaymentService.cs:78-81 | A plan text parses to a plan exactly when, after trimming, it names that plan case-insensitively or gives its number |
| `Enums.NameIsNotNumber` | backend/Quizory.Api/Controllers/OrganizationsController.cs:67 | A text equal to a member name (ignoring case) never also reads as a number, so names and numbers cannot clash |
| `Enums.NamesRoleUnique` | backend/Quizory.Api/Domain/Entities.cs:3 | No text names two different roles |
| `Enums.NamesPlanUnique` | backend/Quizory.Api/Domain/Entities.cs:4 | No text names two different plans |
| `Enums.ParseRoleRoundTrip` | backend/Quizory.Api/Controllers/OrganizationsController.cs:67 | Every role is read back from its name, its upper-case name and its number |
| `Enums.ParsePlanRoundTrip` | backend/Quizory.Api/Services/PaymentService.cs:80 | Every plan is read back from its name, its upper-case name and its number |
| `Enums.NameReadsBack` | backend/Quizory.Api/Controllers/OrganizationsController.cs:67 | A name without surrounding white space still matches itself after trimming and after upper-casing |
| `Enums.NumberReadsBack` | backend/Quizory.Api/Controllers/OrganizationsController.cs:67 | A one-digit member number reads back as itself after trimming |
| `Enums.ParseRoleIgnoresCase` | backend/Quizory.Api/Controllers/OrganizationsController.cs:67 | Upper-casing the text never changes the parsed role |
| `Text.UpperChar` | backend/Quizory.Api/Services/PaymentService.cs:30 | Upper-casing a character maps a–z to A–Z, leaves every other character alone and keeps white space as white space (ASCII letters only; see Left out) |
| `Text.ToUpper` | backend/Quizory.Api/Services/PaymentService.cs:30 | Upper-casing a string keeps its length and upper-cases each character in place (ASCII letters only; see Left out) |
| `Text.TrimStart` | backend/Quizory.Api/Services/PaymentService.cs:30 | The result is a suffix of the input that starts with a non-white-space character (in the sense of `char.IsWhiteSpace`), and only white space was dropped |
| `Text.TrimEnd` | backend/Quizory.Api/Services/PaymentService.cs:30 | The result is a prefix of the input that ends with a non-white-space character (in the sense of `char.IsWhiteSpace`), and only white space was dropped |
| `Text.Trim` | backend/Quizory.Api/Services/PaymentService.cs:30 | A trimmed string has no `char.IsWhiteSpace` character at either end, and is empty exactly when the input was all white space |
| `Text.TrimIdempotent` | backend/Quizory.Api/Services/PaymentService.cs:30 | Trimming twice is trimming once |
| `Text.TrimUpper` | backend/Quizory.Api/Services/PaymentService.cs:30 | Trimming and upper-casing commute |
| `Text.UpperIdempotent` | backend/Quizory.Api/Services/PaymentService.cs:30 | Upper-casing twice is upper-casing once |
| `Text.ParseInt32` | backend/Quizory.Api/Controllers/OrganizationsController.cs:67 | A parsed number is within the 32-bit signed range and comes from a text that starts with a digit or a sign; a string of digits below 2^31 parses to its decimal value |
| `Text.ParseInt32Upper` | backend/Quizory.Api/Controllers/OrganizationsController.cs:67 | Upper-casing a text does not change whether or how it parses as a number |
| `Text.ParseInt32Plus` | backend/Quizory.Api/Controllers/OrganizationsController.cs:67 | A leading '+' before the digits does not change the number read |
| `Text.UpperEqualsIgnoreCase` | backend/Quizory.Api/Controllers/OrganizationsController.cs:67 | Case-insensitive comparison ignores an upper-casing of either side |
| `Text.ParseIntToString` | backend/Quizory.Api/Controllers/OrganizationsController.cs:67 | Every 32-bit number printed in decimal parses back to itself |
| `Ordering.SortDesc` | backend/Quizory.Api/Controllers/QuizzesController.cs:95 | `OrderByDescending` returns a permutation of its input sorted by descending key |
| `Ordering.SortDescStable` | backend/Quizory.Api/Controllers/QuizzesController.cs:95 | The sort is stable: items with equal keys keep their input order |
| `Ordering.Take` | backend/Quizory.Api/Services/StatisticsService.cs:59 | `Take(n)` is the prefix of length min(n, count), and empty for n ≤ 0 |
| `Ordering.Skip` | backend/Quizory.Api/Services/StatisticsService.cs:28 | `Skip(n)` drops the first n items (none for n ≤ 0, all for n ≥ count) |
| `Ordering.Page` | backend/Quizory.Api/Services/StatisticsService.cs:28 | `Skip((page-1)*size).Take(size)` is the contiguous slice of at most `size` items starting at the skipped count |
| `Ordering.PageOffset` | backend/Quizory.Api/Services/StatisticsService.cs:28 | `(page - 1) * pageSize` in 32-bit `int` arithmetic is the exact product whenever that product is in range |
| `Ordering.PageWrapsAround` | backend/Quizory.Api/Services/StatisticsService.cs:28 | A page number whose offset overflows to 0 (page 65537 of size 65536) returns the first page again |
| `Ordering.SortDescHead` | backend/Quizory.Api/Services/StatisticsService.cs:33-34 | The first element of the descending sort has the greatest key, and every element before it in the input has a smaller key (the first of the ties) |
| `Ordering.Count` | backend/Quizory.Api/Services/StatisticsService.cs:35-36 | `Count(p)` is the number of positions whose element satisfies `p`; it is bounded by the length and zero exactly when no element satisfies `p` |
| `Ordering.WhereMembers` | backend/Quizory.Api/Services/StatisticsService.cs:49 | `Where(p)` keeps exactly the elements that satisfy `p` |
| `Ordering.WhereCount` | backend/Quizory.Api/Services/StatisticsService.cs:49 | `Where(p)` keeps one element per position that satisfies `p`, so its length is `Count(p)` |
| `Ordering.WhereAppend` | backend/Quizory.Api/Services/StatisticsService.cs:49 | `Where(p)` of a concatenation is the concatenation of the filtered parts, so the input order is kept |
| `Ordering.WhereOrder` | backend/Quizory.Api/Services/StatisticsService.cs:49 | Any two elements `Where(p)` keeps come from positions of the input in the same order |
| `Authorization.ChooseLanguage` | backend/Quizory.Api/Services/AppServices.cs:22 | The language is "en" exactly when the Accept-Language header starts with "en" in any case, and "sr" otherwise |
| `Authorization.Rank` | backend/Quizory.Api/Services/AppServices.cs:37-42 | Role ranks lie between 1 and 3 |
| `Authorization.RankReversesDeclarationOrder` | backend/Quizory.Api/Services/AppServices.cs:37-42 | The rank table orders roles opposite to their declaration order (Owner highest), and distinct roles have distinct ranks |
| `Authorization.EnsureAtLeast` | backend/Quizory.Api/Services/AppServices.cs:35-45 | A refusal is always "Insufficient permissions." |
| `Authorization.EnsureAtLeastTable` | backend/Quizory.Api/Services/AppServices.cs:35-45 | The check passes exactly for an Owner, for a User requirement, or for an Admin asked for Admin |
| `Authorization.EnsureAtLeastMonotone` | backend/Quizory.Api/Services/AppServices.cs:44 | A role that meets a requirement meets every lower one |
| `Authorization.AdminLevelCount` | backend/Quizory.Api/Services/AppServices.cs:51 | The count of the organization's Owner and Admin members is at most the number of memberships |
| `Authorization.EnsureAdminCap` | backend/Quizory.Api/Services/AppServices.cs:47-54 | A User target always passes; an admin-level target passes exactly while fewer than three admin-level members exist; the refusal carries the cap message |
| `Authorization.AdminCapKeepsAtMostThree` | backend/Quizory.Api/Services/AppServices.cs:47-54 | Adding a member whose role passed the cap check leaves at most three admin-level members, or leaves the count unchanged |
| `Authorization.AdminLevelCountAppend` | backend/Quizory.Api/Services/AppServices.cs:51 | The admin-level count of two membership lists joined is the sum of their counts |
| `Authorization.T` | backend/Quizory.Api/Services/AppServices.cs:129-135 | A key without a translation is returned unchanged |
| `Authorization.LocalizerChoosesLanguage` | backend/Quizory.Api/Services/AppServices.cs:122-135 | For a known key, the English text is returned exactly for "en"; every other language gets the Serbian text |
| `Authorization.UnknownKeysEchoed` | backend/Quizory.Api/Services/AppServices.cs:122-127 | "OwnerOnly" and "OrganizationNotFound" have no translation and are echoed; "Forbidden" is translated |
| `Store.AdminCapAfterAdd` | backend/Quizory.Api/Services/AppServices.cs:47-54 | Adding a membership that passed the cap check keeps every organization at three admin-level members or fewer |
| `Store.AdminCapAfterRoleChange` | backend/Quizory.Api/Controllers/OrganizationsController.cs:93-94 | Changing a role that passed the cap check keeps the admin cap |
| `Store.AdminCapAfterRemove` | backend/Quizory.Api/Controllers/OrganizationsController.cs:110 | Removing a membership keeps the admin cap |
| `Store.AddUserKeeps` | backend/Quizory.Api/Data/AppDbContext.cs:34 | Adding a user with a new email keeps the unique email index and the store invariants |
| `Store.AddMembershipKeeps` | backend/Quizory.Api/Data/AppDbContext.cs:47 | Adding a membership for a new (organization, user) pair that passed the cap check keeps the unique index and the invariants |
| `Store.UniqueMembershipsRemove` | backend/Quizory.Api/Data/AppDbContext.cs:47 | Removing a membership keeps the (organization, user) index unique |
| `Store.FindOrganization` | backend/Quizory.Api/Controllers/OrganizationsController.cs:50 | `FindAsync` returns the organization with that id, and returns nothing exactly when there is none |
| `Store.FindQuiz` | backend/Quizory.Api/Services/ShareService.cs:22 | A found quiz has that id and is not soft-deleted; nothing is found exactly when every quiz with that id is deleted |
| `Store.FindUserByEmail` | backend/Quizory.Api/Auth/AuthService.cs:69 | A found user has that email; nothing is found exactly when no user has it |
| `Store.FindMembership` | backend/Quizory.Api/Controllers/OrganizationsController.cs:88 | A found membership joins that user to that organization; nothing is found exactly when none does |
| `Store.MemberCount` | backend/Quizory.Api/Services/SubscriptionService.cs:150 | The member count is the number of the organization's memberships; it is bounded by the memberships and zero exactly when the organization has no member |
| `Store.Stamp` | backend/Quizory.Api/Data/AppDbContext.cs:85-89 | Saving sets `UpdatedAtUtc` to now for a modified entity only, and keeps organization, deletion flag and creation time |
| `Store.StampTracked` | backend/Quizory.Api/Data/AppDbContext.cs:93-101 | Every tracked entity is stamped according to its own state |
| `Store.StampOnlyModified` | backend/Quizory.Api/Data/AppDbContext.cs:85-89 | Added or unchanged entities keep their metadata, and stamping twice is stamping once |
| `Store.ReplaceOrganization` | backend/Quizory.Api/Controllers/OrganizationsController.cs:52-55 | Saving an edited organization changes exactly that row and keeps the store valid |
| `Store.ReplaceMembership` | backend/Quizory.Api/Controllers/OrganizationsController.cs:94-95 | Saving a role change changes exactly that membership and keeps the store valid |
| `Store.RemoveMembership` | backend/Quizory.Api/Controllers/OrganizationsController.cs:110-111 | Removing a membership deletes exactly that row, keeps every other membership and keeps the store valid |
| `Store.Db.constructor` | backend/Quizory.Api/Data/AppDbContext.cs:30-81 | An empty store satisfies every index and invariant |
| `Store.Db.NewIds` | backend/Quizory.Api/Domain/Entities.cs:10 | Fresh identifiers are taken from the counter, all above every identifier in use |
| `Store.Db.NewId` | backend/Quizory.Api/Domain/Entities.cs:10 | One fresh identifier is taken from the counter |
| `Store.Db.SaveChanges` | backend/Quizory.Api/Data/AppDbContext.cs:93-101 | Staged changes are committed exactly when every unique index holds; otherwise the save fails with a duplicate key and nothing changes |
| `Subscription.EffectivePlan` | backend/Quizory.Api/Services/SubscriptionService.cs:33-38 | The effective plan is Free exactly for a Free organization or an expired trial, and is the stored plan otherwise |
| `Subscription.TrialActiveIffEffectiveTrial` | backend/Quizory.Api/Services/SubscriptionService.cs:50 | For a consistent organization the "trial active" flag holds exactly when the effective plan is Trial |
| `Subscription.LimitsAndFeatures` | backend/Quizory.Api/Services/SubscriptionService.cs:156-175 | Free gets 5 quizzes a month, 1 member and no features; Trial and Premium get `int.MaxValue` quizzes, 1000 members and every feature |
| `Subscription.ContextOrganization` | backend/Quizory.Api/Services/SubscriptionService.cs:124 | The request's organization is found by id; a missing one is the null-reference failure of `Find(...)!` |
| `Subscription.EnforceFeature` | backend/Quizory.Api/Services/SubscriptionService.cs:121-128 | A feature is refused exactly when the effective plan is Free and the feature is leagues, questionBank, members or share |
| `Subscription.GateAgreesWithLimits` | backend/Quizory.Api/Services/SubscriptionService.cs:126 | For every gated feature, the gate refuses exactly when the plan's feature flags deny it |
| `Subscription.QuizzesSince` | backend/Quizory.Api/Services/SubscriptionService.cs:138 | The count is the number of the organization's live quizzes created at or after the start of the month, and is bounded by the quizzes |
| `Subscription.EnforceQuizMonthlyLimit` | backend/Quizory.Api/Services/SubscriptionService.cs:130-141 | A quiz is refused exactly when the effective plan is Free and five quizzes were already created this month |
| `Subscription.EnforceMemberLimit` | backend/Quizory.Api/Services/SubscriptionService.cs:143-154 | A member is refused exactly when the effective plan is Free and the organization already has one member |
| `Subscription.GetCurrentSubscription` | backend/Quizory.Api/Services/SubscriptionService.cs:40-60 | Fails exactly for an unknown organization; otherwise reports the effective plan with that plan's limits and features, "trial active" exactly for an effective trial, the stored trial end, the quizzes created this month and the member count |
| `Subscription.OwnerGuard` | backend/Quizory.Api/Services/SubscriptionService.cs:64-66 | Passes exactly for the Owner of that same organization |
| `Subscription.StartTrialStep` | backend/Quizory.Api/Services/SubscriptionService.cs:62-76 | A trial starts exactly for the Owner of an existing organization whose effective plan is Free, and ends 14 days later |
| `Subscription.SetPremiumStep` | backend/Quizory.Api/Services/SubscriptionService.cs:78-89 | The Owner of an existing organization moves it to Premium and clears the trial end |
| `Subscription.DowngradeStep` | backend/Quizory.Api/Services/SubscriptionService.cs:91-105 | The Owner downgrades to Free exactly when the organization has at most one member, and the trial end is cleared |
| `Subscription.TransitionsConsistent` | backend/Quizory.Api/Services/SubscriptionService.cs:62-105 | Each successful transition leaves a consistent organization whose effective plan is the one it set |
| `Subscription.StartTrialFromExpiredTrial` | backend/Quizory.Api/Services/SubscriptionService.cs:69-71 | An expired trial may start a new trial; an active trial or Premium may not |
| `Subscription.ApplyStep` | backend/Quizory.Api/Services/SubscriptionService.cs:72-75 | A successful step replaces exactly that organization row; a failed one changes nothing and returns its error |
| `Subscription.StartTrial` | backend/Quizory.Api/Services/SubscriptionService.cs:62-76 | The store changes exactly as `StartTrialStep` decides, and stays valid |
| `Subscription.SetPremium` | backend/Quizory.Api/Services/SubscriptionService.cs:78-89 | The store changes exactly as `SetPremiumStep` decides, and stays valid |
| `Subscription.DowngradeToFree` | backend/Quizory.Api/Services/SubscriptionService.cs:91-105 | The store changes exactly as `DowngradeStep` decides for the organization's member count, and stays valid |
| `Subscription.Expire` | backend/Quizory.Api/Services/SubscriptionService.cs:110-116 | An expired trial becomes Free with no trial end, stamped now; any other organization is untouched |
| `Subscription.ExpireAll` | backend/Quizory.Api/Services/SubscriptionService.cs:107-119 | Every organization is expired independently and in place |
| `Subscription.ExpireAllProperties` | backend/Quizory.Api/Services/SubscriptionService.cs:107-119 | Expiring keeps each effective plan, leaves no expired trial, keeps plans consistent and is idempotent |
| `Subscription.ExpireTrials` | backend/Quizory.Api/Services/SubscriptionService.cs:107-119 | The job replaces the organizations by their expired versions and changes nothing else |
| `Scoring.Scoped` | backend/Quizory.Api/Services/AppServices.cs:95-97 | The entries of the quiz are exactly the live entries of that organization and quiz |
| `Scoring.TeamOrder` | backend/Quizory.Api/Services/AppServices.cs:105 | `GroupBy` yields each team with an entry exactly once, and no other team |
| `Scoring.Totals` | backend/Quizory.Api/Services/AppServices.cs:105-111 | One standing per group, in group order |
| `Scoring.ComputeRanking` | backend/Quizory.Api/Services/AppServices.cs:93-112 | The ranking has one standing per team with an in-scope entry, and no team twice |
| `Scoring.Lookup` | backend/Quizory.Api/Services/AppServices.cs:105-111 | Looking a team up finds its standing's points, and finds nothing exactly when the team has no standing |
| `Scoring.LookupIffIn` | backend/Quizory.Api/Services/AppServices.cs:105-111 | In a ranking with distinct teams, a lookup gives p exactly when the standing (team, p) is present |
| `Scoring.RankingLookup` | backend/Quizory.Api/Services/AppServices.cs:93-112 | A team's ranking value is the sum of its points and bonus points, doubled when it played a DoubleScore help; a team without an in-scope entry has none |
| `Scoring.TeamTotalAppend` | backend/Quizory.Api/Services/AppServices.cs:109 | A team's total over two lists of entries is the sum of the two totals |
| `Scoring.ScopedAppend` | backend/Quizory.Api/Services/AppServices.cs:95-97 | A new entry joins the quiz's entries exactly when it is in scope |
| `Scoring.ScopedIdempotent` | backend/Quizory.Api/Services/AppServices.cs:96 | Filtering the quiz's entries twice is filtering once |
| `Scoring.ForeignEntriesIgnored` | backend/Quizory.Api/Services/AppServices.cs:95-97 | The ranking only depends on the entries of its organization and quiz |
| `Scoring.ForeignEntryNoEffect` | backend/Quizory.Api/Services/AppServices.cs:95-97 | Adding an entry of another organization or quiz, or a deleted one, leaves the ranking unchanged |
| `Scoring.JokersAppend` | backend/Quizory.Api/Services/AppServices.cs:98-103 | A new help usage adds its team to the jokers exactly when it plays a DoubleScore help in that quiz |
| `Scoring.MarkerOnlyNoEffect` | backend/Quizory.Api/Services/AppServices.cs:98-103 | Playing a help that is not DoubleScore never changes the ranking |
| `Scoring.DoubledAtMostOnce` | backend/Quizory.Api/Services/AppServices.cs:98-110 | A second DoubleScore usage by a team that already has one does not double its total again |
| `Scoring.Descending` | backend/Quizory.Api/Controllers/QuizzesController.cs:95 | The ordered ranking is a permutation of the ranking, by descending points |
| `Scoring.RankRows` | backend/Quizory.Api/Controllers/QuizzesController.cs:95 | Row i carries rank i + 1 and the i-th team and points |
| `Scoring.DescendingStable` | backend/Quizory.Api/Controllers/QuizzesController.cs:95 | Tied teams keep their ranking (group) order |
| `Scoring.ScenarioRanking` | backend/Quizory.Api/Services/AppServices.cs:93-112 | Worked example: team A scores 10 and 5 + 2 bonus and plays a DoubleScore joker, so it totals 34; team B scores 8 twice and totals 16; the ranking lists A then B in group order |
| `Scoring.Scenario` | backend/Quizory.Api/Controllers/QuizzesController.cs:90-97 | Worked example: the ranking endpoint lists team A first with 34 and team B second with 16 |
| `Quizzes.NewQuiz` | backend/Quizory.Api/Controllers/QuizzesController.cs:33-41 | A created quiz is a live Draft stamped with the creation time |
| `Quizzes.Links` | backend/Quizory.Api/Controllers/QuizzesController.cs:43-45 | One quiz-team link per requested team, in request order |
| `Quizzes.StageRows` | backend/Quizory.Api/Controllers/QuizzesController.cs:43-50 | The nested loops stage the links and the team × category grid of entries |
| `Quizzes.RowMembers` | backend/Quizory.Api/Controllers/QuizzesController.cs:46-49 | A team's row holds exactly a fresh entry for each requested category |
| `Quizzes.CrossProductSize` | backend/Quizory.Api/Controllers/QuizzesController.cs:43-50 | The grid has teams × categories entries |
| `Quizzes.CrossProductMembers` | backend/Quizory.Api/Controllers/QuizzesController.cs:43-50 | The grid holds exactly one fresh entry for every requested team and category |
| `Quizzes.CrossProductZeroed` | backend/Quizory.Api/Controllers/QuizzesController.cs:48 | Every staged entry starts at zero points and zero bonus, unlocked and live, in this quiz and organization |
| `Quizzes.RowUnique` | backend/Quizory.Api/Controllers/QuizzesController.cs:46-49 | Distinct categories give a row without duplicate entry keys |
| `Quizzes.CrossProductUnique` | backend/Quizory.Api/Controllers/QuizzesController.cs:43-50 | Distinct teams and distinct categories give a grid that satisfies the unique score-entry index |
| `Quizzes.CreateStagedIndexed` | backend/Quizory.Api/Controllers/QuizzesController.cs:41-52 | With distinct teams and categories, the staged quiz passes every unique index |
| `Quizzes.CreateStagedKeeps` | backend/Quizory.Api/Controllers/QuizzesController.cs:41-52 | Staging a quiz keeps the store invariants |
| `Quizzes.Create` | backend/Quizory.Api/Controllers/QuizzesController.cs:27-54 | The monthly limit refuses and changes nothing; otherwise the quiz, its links and its grid are saved with the "QuizCreated" message, or a duplicate key changes nothing; distinct ids always succeed |
| `Quizzes.FindEntry` | backend/Quizory.Api/Controllers/QuizzesController.cs:60 | A found entry is live with that (organization, quiz, team, category) key; nothing is found exactly when no live entry has it |
| `Quizzes.Updated` | backend/Quizory.Api/Controllers/QuizzesController.cs:64-67 | Updating keeps the entry's key and deletion flag and takes the request's four values; a request that changes none of them leaves the entry exactly as it was, any other stamps it with the current time |
| `Quizzes.UpsertDecision` | backend/Quizory.Api/Controllers/QuizzesController.cs:60-67 | NotFound exactly when no entry matches; "locked" exactly when the match is locked; otherwise the unlocked match is overwritten |
| `Quizzes.Upserted` | backend/Quizory.Api/Controllers/QuizzesController.cs:60-68 | An upsert keeps the number of entries |
| `Quizzes.UpsertTouchesOneUnlocked` | backend/Quizory.Api/Controllers/QuizzesController.cs:60-67 | Entries that are locked, deleted or have another key are never changed by an upsert |
| `Quizzes.Session` | backend/Quizory.Api/Controllers/QuizzesController.cs:56-70 | A series of upserts keeps the number of entries |
| `Quizzes.LockIsPermanent` | backend/Quizory.Api/Controllers/QuizzesController.cs:62 | Once locked, an entry is never changed by any series of upserts |
| `Quizzes.UniqueEntriesReplace` | backend/Quizory.Api/Data/AppDbContext.cs:56 | Overwriting an entry with one of the same key keeps the score-entry index unique |
| `Quizzes.UpsertScore` | backend/Quizory.Api/Controllers/QuizzesController.cs:56-70 | Refusals change nothing; otherwise exactly the matching entry is replaced by its update (unstamped when nothing changed) and returned |
| `Quizzes.ApplyHelp` | backend/Quizory.Api/Controllers/QuizzesController.cs:72-88 | A help already used by the team in the quiz is refused; otherwise one usage is added, unless the unique usage index (which also counts deleted usages) rejects it |
| `Quizzes.HelpUsedIn` | backend/Quizory.Api/Controllers/QuizzesController.cs:76 | The loop finds a live usage exactly when the team used that help in that quiz |
| `Quizzes.UsageAppendIndexed` | backend/Quizory.Api/Data/AppDbContext.cs:55 | A new usage keeps the usage index unique exactly when no usage has its key |
| `Quizzes.HelpOncePerTeam` | backend/Quizory.Api/Controllers/QuizzesController.cs:76-85 | After a help is applied, applying it again for the same team and quiz is refused |
| `Quizzes.Ranking` | backend/Quizory.Api/Controllers/QuizzesController.cs:90-97 | The endpoint lists every ranked team once, best first, with ranks 1, 2, …, and a row (team, p) exactly when the ranking gives the team p |
| `Quizzes.OrderedRowAgrees` | backend/Quizory.Api/Controllers/QuizzesController.cs:95 | Ordering and numbering the ranking loses and invents no (team, points) pair |
| `Statistics.RankingOf` | backend/Quizory.Api/Services/StatisticsService.cs:32 | A quiz's ranking never lists a team twice |
| `Statistics.Selected` | backend/Quizory.Api/Services/StatisticsService.cs:20-25 | The selected quizzes are exactly the organization's quizzes that match the date, league and team filters |
| `Statistics.Newest` | backend/Quizory.Api/Services/StatisticsService.cs:28 | Quizzes ordered newest first are a permutation of the selection |
| `Statistics.Winner` | backend/Quizory.Api/Services/StatisticsService.cs:33-34 | There is no winner exactly for an empty ranking (and then 0 points); otherwise the winner's points are its ranking value and the best of all, and it is the first standing with that value |
| `Statistics.TeamCount` | backend/Quizory.Api/Services/StatisticsService.cs:35 | The team count is the number of the quiz's live quiz-team links, and is bounded by the links |
| `Statistics.QuizCategoryCount` | backend/Quizory.Api/Services/StatisticsService.cs:36 | The category-link count is the number of the quiz's links, bounded by the links, and zero exactly when the quiz has none |
| `Statistics.CategoryCount` | backend/Quizory.Api/Services/StatisticsService.cs:36-37 | With some link to the quiz, the count is the number of its links; with none, it is the number of distinct categories among the quiz's live entries |
| `Statistics.Summary` | backend/Quizory.Api/Services/StatisticsService.cs:30-40 | A summary carries the quiz's id, name, date, location and status, its team count and category count, and a winner with the best ranking value (none exactly for an empty ranking) |
| `Statistics.SummaryPage` | backend/Quizory.Api/Services/StatisticsService.cs:28 | A page holds at most `pageSize` selected quizzes, and none for a non-positive size |
| `Statistics.QuizSummaries` | backend/Quizory.Api/Services/StatisticsService.cs:18-43 | The total counts every selected quiz; the items summarise the page's quizzes in order |
| `Statistics.SummarizeEach` | backend/Quizory.Api/Services/StatisticsService.cs:30-41 | The loop summarises each quiz in order |
| `Statistics.SummaryPageMatches` | backend/Quizory.Api/Services/StatisticsService.cs:20-28 | Every quiz on a page belongs to the organization and matches the filters |
| `Statistics.FindLeague` | backend/Quizory.Api/Services/StatisticsService.cs:47 | A found league has that id, belongs to the organization and is live; nothing is found exactly when no such league exists |
| `Statistics.LeagueQuizIds` | backend/Quizory.Api/Services/StatisticsService.cs:49 | An id is listed exactly when some quiz of the organization is in the league and has it; there is one id per such quiz, so no more than the quizzes |
| `Statistics.LeagueQuizIdsAppend` | backend/Quizory.Api/Services/StatisticsService.cs:49 | The league's quiz ids keep the table order: the ids of a concatenation are the ids of its parts, one after the other |
| `Statistics.IndexOfTeam` | backend/Quizory.Api/Services/StatisticsService.cs:56 | Finds the first standing of the team, and nothing exactly when the team has none |
| `Statistics.AddPoints` | backend/Quizory.Api/Services/StatisticsService.cs:56 | Adding points keeps teams distinct and adds at most the one team |
| `Statistics.AddPointsValue` | backend/Quizory.Api/Services/StatisticsService.cs:56 | `GetValueOrDefault(team) + points` raises exactly that team's total |
| `Statistics.Accumulate` | backend/Quizory.Api/Services/StatisticsService.cs:54-57 | Folding a ranking keeps teams distinct and covers the teams of both |
| `Statistics.AccumulateValue` | backend/Quizory.Api/Services/StatisticsService.cs:54-57 | After folding in a ranking, each team's total is its old total plus its ranking value |
| `Statistics.LeagueTotals` | backend/Quizory.Api/Services/StatisticsService.cs:50-58 | League totals never list a team twice |
| `Statistics.LeagueTotalIsSum` | backend/Quizory.Api/Services/StatisticsService.cs:50-58 | A team's league total is the sum of its values over the league's quiz rankings, and it is listed exactly when it appears in one of them |
| `Statistics.SumRankings` | backend/Quizory.Api/Services/StatisticsService.cs:51-58 | The outer loop computes the league totals |
| `Statistics.AddRanking` | backend/Quizory.Api/Services/StatisticsService.cs:54-57 | The inner loop folds one ranking into the totals |
| `Statistics.TopTeams` | backend/Quizory.Api/Services/StatisticsService.cs:60-62 | Row i shows the i-th team with its name (or ""), rank i + 1 and its points |
| `Statistics.LeagueSummaryOf` | backend/Quizory.Api/Services/StatisticsService.cs:45-64 | No summary exactly for an unknown league; otherwise its name, its quiz count and the top 20 of the ordered totals |
| `Statistics.LeagueStandings` | backend/Quizory.Api/Services/StatisticsService.cs:59-62 | At most 20 rows, best first, ranked 1, 2, …, each showing the team's summed quiz values |
| `Statistics.TopRowsShowTotals` | backend/Quizory.Api/Services/StatisticsService.cs:59-62 | The top rows are ordered, numbered from 1, bounded by the count and carry each team's total |
| `Statistics.HistoryRow` | backend/Quizory.Api/Services/StatisticsService.cs:101-106 | A quiz yields a history row exactly when the team is in its ranking |
| `Statistics.HistoryRowRank` | backend/Quizory.Api/Services/StatisticsService.cs:102-105 | The row's rank is the team's first position in the ordered ranking, and its points are its ranking value |
| `Statistics.HistoryRows` | backend/Quizory.Api/Services/StatisticsService.cs:99-107 | A history has at most one row per quiz |
| `Statistics.TeamHistory` | backend/Quizory.Api/Services/StatisticsService.cs:92-109 | The history is the rows of the team's newest `limit` quizzes (in the league, if given), and is empty for a non-positive limit |
| `Statistics.CollectHistory` | backend/Quizory.Api/Services/StatisticsService.cs:98-108 | The loop collects the history rows of the quizzes in order |
| `Share.ShareUrl` | backend/Quizory.Api/Services/ShareService.cs:33 | The share URL is exactly as long as the leaderboard path and the token together |
| `Share.TokenOfUrl` | backend/Quizory.Api/Services/ShareService.cs:33 | A token read from a URL is as long as the URL minus the leaderboard path |
| `Share.UrlCarriesToken` | backend/Quizory.Api/Services/ShareService.cs:33 | The token is read back from its URL, and different tokens give different URLs |
| `Share.ShareTokenKeeps` | backend/Quizory.Api/Data/AppDbContext.cs:65 | A new share token keeps the invariants, and keeps the token index unique exactly when the token is new |
| `Share.CreateToken` | backend/Quizory.Api/Services/ShareService.cs:20-34 | An unknown quiz gives no token and changes nothing; otherwise one token row for the quiz's organization is added and returned with its URL, unless the token is already taken |
| `Share.FindShareToken` | backend/Quizory.Api/Services/ShareService.cs:38 | A found record carries the token; nothing is found exactly when no record does |
| `Share.GetByToken` | backend/Quizory.Api/Services/ShareService.cs:36-50 | No leaderboard exactly for an unknown or expired token or a missing quiz; otherwise the quiz's name, date, ordered ranking and the organization's colour (if found) |
| `Share.LeaderboardRanked` | backend/Quizory.Api/Services/ShareService.cs:44-48 | The shared leaderboard has one row per ranked team, best first, ranks 1, 2, …, and each row's points are the team's ranking value |
| `Share.RowsOrdered` | backend/Quizory.Api/Services/ShareService.cs:45-48 | Rows of an ordered ranking are ordered, numbered from 1 and list no team twice |
| `Share.RowsCarryRanking` | backend/Quizory.Api/Services/ShareService.cs:44-48 | Each row shows its team's ranking value, and every standing appears as a row |
| `Share.NoExpiryNeverExpires` | backend/Quizory.Api/Services/ShareService.cs:40 | A token without an expiry gives the same answer at any time |
| `Share.ExpiryIsMonotone` | backend/Quizory.Api/Services/ShareService.cs:40 | A token that opens now opened the same leaderboard earlier, and an expired token stays expired |
| `Share.CreatedTokenOpens` | backend/Quizory.Api/Services/ShareService.cs:20-49 | A freshly created, unexpired token opens the quiz's leaderboard |
| `Organizations.UpdateOrganization` | backend/Quizory.Api/Controllers/OrganizationsController.cs:45-57 | Only an Owner of an existing organization succeeds; a given name or colour replaces the old one, a missing one keeps it, and `UpdatedAtUtc` becomes now; refusals change nothing |
| `Organizations.InviteGuards` | backend/Quizory.Api/Controllers/OrganizationsController.cs:62-68 | An invitation passes exactly when the inviter is at least Admin, the members feature and member limit allow it, the role parses and passes the admin cap |
| `Organizations.InviteGuardOrder` | backend/Quizory.Api/Controllers/OrganizationsController.cs:62-63 | A User inviter is refused for permissions; an Admin or Owner on an effectively Free plan is refused by the feature gate |
| `Organizations.MemberLimitNeverRefusesInvite` | backend/Quizory.Api/Controllers/OrganizationsController.cs:63-64 | The member limit never produces the refusal of an invitation: a Free plan is already refused by the members feature gate |
| `Organizations.InviteMayCreateOwner` | backend/Quizory.Api/Controllers/OrganizationsController.cs:67-68 | An Admin of a Premium organization with no admin-level members may invite a second Owner |
| `Organizations.InviteMember` | backend/Quizory.Api/Controllers/OrganizationsController.cs:59-81 | A refused invitation changes nothing; otherwise the new or existing user is admitted as described by `Admitted` |
| `Organizations.AddMember` | backend/Quizory.Api/Controllers/OrganizationsController.cs:70-80 | An existing member gives "AlreadyMember"; an existing user gets one membership; an unknown email gets a pending user and a membership |
| `Organizations.AdmitPending` | backend/Quizory.Api/Controllers/OrganizationsController.cs:71-80 | An unknown email creates a "pending" user named by the display name (or the email) plus its membership, and returns them |
| `Organizations.SavePending` | backend/Quizory.Api/Controllers/OrganizationsController.cs:73-79 | Saving the pending user and its membership always succeeds and keeps the store valid |
| `Organizations.PendingMemberKeeps` | backend/Quizory.Api/Controllers/OrganizationsController.cs:73-78 | A pending user with a new email plus a capped membership keep every index and invariant |
| `Organizations.SaveMembership` | backend/Quizory.Api/Controllers/OrganizationsController.cs:78-80 | Saving one new membership for an existing user always succeeds |
| `Organizations.RoleChange` | backend/Quizory.Api/Controllers/OrganizationsController.cs:86-93 | A role change succeeds only for an Owner, on a non-Owner member of the organization, to a parsed non-Owner role that passes the cap, and then always succeeds on that membership; a missing member is refused |
| `Organizations.RoleChangeRefusals` | backend/Quizory.Api/Controllers/OrganizationsController.cs:86-92 | Non-Owners are refused for permissions; a missing member is NotFound; an Owner's role cannot change; an unparsable role is the parse exception; nobody can be made Owner; a role over the admin cap gets the cap's refusal |
| `Organizations.UpdateMemberRole` | backend/Quizory.Api/Controllers/OrganizationsController.cs:83-97 | A refusal changes nothing; otherwise exactly that membership gets the new role; who is Owner never changes |
| `Organizations.Removal` | backend/Quizory.Api/Controllers/OrganizationsController.cs:102-109 | A removal succeeds only for an admin-level caller on a non-Owner member, and an Admin may only remove Users |
| `Organizations.RemovalAllowed` | backend/Quizory.Api/Controllers/OrganizationsController.cs:105-109 | A member can be removed exactly by an Owner (if not an Owner) or by an Admin (if a User) |
| `Organizations.RemoveMember` | backend/Quizory.Api/Controllers/OrganizationsController.cs:99-113 | A refusal changes nothing; otherwise exactly that membership is deleted; no Owner is ever removed |
| `Payments.NormalizeCurrency` | backend/Quizory.Api/Services/PaymentService.cs:30 | The currency is "EUR" when blank, and otherwise non-empty, without surrounding white space and without lower-case ASCII letters |
| `Payments.UpperOfTrimmed` | backend/Quizory.Api/Services/PaymentService.cs:30 | Upper-casing a trimmed non-empty text keeps it trimmed and non-empty |
| `Payments.NormalizeCurrencyIdempotent` | backend/Quizory.Api/Services/PaymentService.cs:30 | Normalising a normalised currency changes nothing |
| `Payments.CreateGuards` | backend/Quizory.Api/Services/PaymentService.cs:21-29 | A payment may be created exactly by the Owner of an existing organization, for the Premium plan, with a positive amount; an unparsable plan gives "Invalid plan." |
| `Payments.CreatePayment` | backend/Quizory.Api/Services/PaymentService.cs:18-42 | A refused payment changes nothing; otherwise one Pending Premium payment with the normalised currency is added and returned |
| `Payments.FindById` | backend/Quizory.Api/Services/PaymentService.cs:65 | Finds the first payment with that id in the organization, and nothing exactly when there is none |
| `Payments.FindByExternalId` | backend/Quizory.Api/Services/PaymentService.cs:67 | Finds the first payment with that external id in the organization, and nothing exactly when there is none |
| `Payments.ConfirmTarget` | backend/Quizory.Api/Services/PaymentService.cs:63-68 | The lookup by id wins; the external id is tried only when it is not blank; nothing is found exactly when both fail |
| `Payments.ConfirmStep` | backend/Quizory.Api/Services/PaymentService.cs:58-72 | Non-Owners are refused; a missing payment gives no result; a non-Pending payment is "already processed"; otherwise it becomes Completed now |
| `Payments.TargetStable` | backend/Quizory.Api/Services/PaymentService.cs:71-72 | Completing a payment does not change which payment a later confirmation finds |
| `Payments.FindByIdStable` | backend/Quizory.Api/Services/PaymentService.cs:65 | Rewriting a payment with the same id and organization keeps the id lookup |
| `Payments.FindByExternalIdStable` | backend/Quizory.Api/Services/PaymentService.cs:67 | Rewriting a payment with the same external id and organization keeps the external-id lookup |
| `Payments.ConfirmOnce` | backend/Quizory.Api/Services/PaymentService.cs:69-70 | A payment confirmed once is refused as already processed on any later confirmation |
| `Payments.CreatedIsConfirmable` | backend/Quizory.Api/Services/PaymentService.cs:58-72 | A freshly created Pending payment is confirmed by its Owner via its id |
| `Payments.ConfirmPayment` | backend/Quizory.Api/Services/PaymentService.cs:58-76 | The store changes exactly as `ConfirmStep` decides; a confirmed payment also upgrades the organization to Premium, and a missing organization leaves the payment completed and reports "OrganizationNotFound" |
| `Auth.FindUser` | backend/Quizory.Api/Auth/AuthService.cs:93 | Finds the user with that id, and nothing exactly when there is none |
| `Auth.NewRegistration` | backend/Quizory.Api/Auth/AuthService.cs:32-58 | Registration makes an unverified user, a Free organization without trial end, an Owner membership and a verification token valid for 24 hours |
| `Auth.RegisteredKeeps` | backend/Quizory.Api/Auth/AuthService.cs:40-60 | A registration with a new email and a new token keeps every index and invariant |
| `Auth.Register` | backend/Quizory.Api/Auth/AuthService.cs:26-65 | A known email gives "EmailAlreadyExists" and changes nothing; otherwise the four rows are saved and the Owner result returned, unless the token is taken |
| `Auth.AddRegistration` | backend/Quizory.Api/Auth/AuthService.cs:31-64 | For a new email the registration rows are saved exactly when the token is new |
| `Auth.SaveRegistration` | backend/Quizory.Api/Auth/AuthService.cs:60 | The save passes exactly when the verification token is new, and otherwise changes nothing |
| `Auth.RegistrationSaves` | backend/Quizory.Api/Auth/AuthService.cs:40-60 | The registered tables keep the invariants, and pass every index exactly when the token is new |
| `Auth.InvariantsAfterRegistration` | backend/Quizory.Api/Auth/AuthService.cs:40-58 | The registered tables keep the referential invariants |
| `Auth.LoginMembership` | backend/Quizory.Api/Auth/AuthService.cs:77-80 | The chosen membership is the user's; it is an Owner one whenever the user owns some organization; none exactly when the user has none |
| `Auth.FirstMembership` | backend/Quizory.Api/Auth/AuthService.cs:77-80 | Finds the user's first (Owner, if asked) membership, and none exactly when there is none |
| `Auth.Login` | backend/Quizory.Api/Auth/AuthService.cs:67-86 | An unknown email and a wrong password give nothing; a pending user is "AccountPendingInvite"; a verified user without membership is "NoOrganization"; a verified user with one logs in to the organization and role `LoginMembership` picks |
| `Auth.LoginPrefersOwner` | backend/Quizory.Api/Auth/AuthService.cs:79 | A user who owns some organization logs in as Owner |
| `Auth.RegisteredUserLogsIn` | backend/Quizory.Api/Auth/AuthService.cs:67-86 | A newly registered user logs in with the right password as Owner of the new organization |
| `Auth.LiveEmailToken` | backend/Quizory.Api/Auth/AuthService.cs:90-91 | Finds an unexpired verification token with that value, and nothing exactly when there is none |
| `Auth.VerifyStep` | backend/Quizory.Api/Auth/AuthService.cs:90-94 | Verification needs a live token and the user it names |
| `Auth.VerifiedKeeps` | backend/Quizory.Api/Auth/AuthService.cs:95-97 | Marking the user verified and deleting the token keeps every index and invariant |
| `Auth.VerifyEmail` | backend/Quizory.Api/Auth/AuthService.cs:88-99 | Succeeds exactly when `VerifyStep` finds token and user, and then only the user's flag and the token row change |
| `Auth.VerifyOnce` | backend/Quizory.Api/Auth/AuthService.cs:96 | A verification token cannot be used twice |
| `Auth.VerificationExpires` | backend/Quizory.Api/Auth/AuthService.cs:57 | The token of a registration is live for 24 hours and unusable afterwards |
| `Auth.RequestPasswordReset` | backend/Quizory.Api/Auth/AuthService.cs:101-117 | Always answers true; an unknown or pending user changes nothing; otherwise one reset token valid for one hour is added, unless the token is taken |
| `Auth.LiveResetToken` | backend/Quizory.Api/Auth/AuthService.cs:121-122 | Finds an unused, unexpired reset token with that value, and nothing exactly when there is none |
| `Auth.ResetStep` | backend/Quizory.Api/Auth/AuthService.cs:121-125 | A reset needs a live token and the user it names |
| `Auth.ResetKeeps` | backend/Quizory.Api/Auth/AuthService.cs:126-128 | Setting the hash and marking the token used keeps every index and invariant |
| `Auth.ResetPassword` | backend/Quizory.Api/Auth/AuthService.cs:119-130 | Succeeds exactly when `ResetStep` finds token and user, and then only the user's hash and the token's flag change |
| `Auth.ResetOnce` | backend/Quizory.Api/Auth/AuthService.cs:127 | A reset token cannot be used twice |
| `Auth.PendingInviteIsStuck` | backend/Quizory.Api/Auth/AuthService.cs:72-73 | An invited user (hash "pending") can never log in, and a password reset is silently skipped for them |
| `Sheets.GetString` | backend/Quizory.Api/Services/ExportImportService.cs:176 | An empty cell reads as "", a text cell as its text and a non-empty reading comes from a cell that is present |
| `Sheets.GetStringNumber` | backend/Quizory.Api/Services/ExportImportService.cs:176 | A 32-bit number cell reads as a decimal text that parses back to the same number |
| `Sheets.TryGetInt` | backend/Quizory.Api/Services/ExportImportService.cs:225 | A numeric cell in the 32-bit range reads as its number; an empty cell reads as nothing |
| `Sheets.SheetName` | backend/Quizory.Api/Services/ExportImportService.cs:59 | The worksheet name is the name cut to its first min(31, length) characters; it is a valid worksheet name exactly when the name is not empty and its first 31 characters avoid `: \ / ? * [ ]` |
| `Sheets.Strs` | backend/Quizory.Api/Services/ExportImportService.cs:67-70 | Each name becomes a text cell, in order |
| `Sheets.ReadRow` | backend/Quizory.Api/Services/ExportImportService.cs:186-194 | The header loop reads the non-empty cells from the start column rightwards |
| `Sheets.ReadRowOf` | backend/Quizory.Api/Services/ExportImportService.cs:186-194 | A run of non-empty cells ended by an empty one is read back exactly |
| `Sheets.ReadColumn` | backend/Quizory.Api/Services/ExportImportService.cs:210-214 | The team loop reads the non-empty cells from the start row downwards |
| `Sheets.ReadColumnOf` | backend/Quizory.Api/Services/ExportImportService.cs:210-214 | A run of non-empty cells ended by an empty one is read back exactly |
| `ExcelExport.LinksOf` | backend/Quizory.Api/Services/ExportImportService.cs:46 | The quiz's category links are exactly the links of that quiz, as many as the summary's link count |
| `ExcelExport.ByOrderIndex` | backend/Quizory.Api/Services/ExportImportService.cs:46 | The links ordered by `OrderIndex` are a permutation of them, ascending |
| `ExcelExport.LinkCategoryIds` | backend/Quizory.Api/Services/ExportImportService.cs:46-47 | The join key of each link is its category id |
| `ExcelExport.JoinCategories` | backend/Quizory.Api/Services/ExportImportService.cs:46-47 | Each joined column is a requested id paired with that category's name; every requested id that has a category is kept; the join is no longer than the ids and empty exactly when no id has a category |
| `ExcelExport.JoinCategoriesAppend` | backend/Quizory.Api/Services/ExportImportService.cs:46-47 | The join keeps the order of the requested ids: joining a concatenation joins its parts one after the other |
| `ExcelExport.EntryCategoryIds` | backend/Quizory.Api/Services/ExportImportService.cs:49 | The fallback lists each category of the quiz's live entries once |
| `ExcelExport.CategoryColumns` | backend/Quizory.Api/Services/ExportImportService.cs:46-52 | Every column pairs a category id with its name; when some linked category has a name, the columns are exactly the named linked categories, in the order of the links' indexes; otherwise exactly the named categories the quiz's live entries use |
| `ExcelExport.LinkedColumnsMembers` | backend/Quizory.Api/Services/ExportImportService.cs:46-47 | The columns built from the links are exactly the linked categories that have a name |
| `ExcelExport.LinkedColumnsOrder` | backend/Quizory.Api/Services/ExportImportService.cs:46 | The columns built from the links follow the links' order indexes |
| `ExcelExport.UsedColumnsFacts` | backend/Quizory.Api/Services/ExportImportService.cs:48-50 | The fallback columns are exactly the named categories the quiz's live entries use |
| `ExcelExport.ColumnIds` | backend/Quizory.Api/Services/ExportImportService.cs:51 | The ordered ids are the columns' ids |
| `ExcelExport.ColumnNames` | backend/Quizory.Api/Services/ExportImportService.cs:52 | The header names are the columns' names |
| `ExcelExport.TeamLinks` | backend/Quizory.Api/Services/ExportImportService.cs:53-55 | The quiz's team links are exactly its live links, as many as the summary's team count |
| `ExcelExport.TeamLinksAppend` | backend/Quizory.Api/Services/ExportImportService.cs:55 | The team links keep the table order and every repetition: the links of a concatenation are the links of its parts |
| `ExcelExport.FirstRepeatedTeam` | backend/Quizory.Api/Services/ExportImportService.cs:55 | There is a repeated team exactly when the links are not unique by team, and it is the team of the first link whose team an earlier link already has |
| `ExcelExport.DuplicateKeyError` | backend/Quizory.Api/Services/ExportImportService.cs:55 | The repeated-key exception is an argument error whose message starts with .NET's duplicate-key text (followed by the key) |
| `ExcelExport.EntryPoints` | backend/Quizory.Api/Services/ExportImportService.cs:83-84 | A non-zero cell is the points plus bonus of a matching entry, and 0 for a team without a matching entry |
| `ExcelExport.EntryPointsFirst` | backend/Quizory.Api/Services/ExportImportService.cs:83-84 | When matching entries exist, the cell is the points plus bonus of the first of them |
| `ExcelExport.PointCells` | backend/Quizory.Api/Services/ExportImportService.cs:81-87 | One number cell per category column, in column order |
| `ExcelExport.TeamRows` | backend/Quizory.Api/Services/ExportImportService.cs:74-91 | One sheet row per ordered team |
| `ExcelExport.TeamOrder` | backend/Quizory.Api/Services/ExportImportService.cs:57 | The teams in descending ranking order |
| `ExcelExport.TeamOrderFacts` | backend/Quizory.Api/Services/ExportImportService.cs:56-57 | The ordered teams are exactly the ranked teams, by descending ranking value |
| `ExcelExport.ExportQuiz` | backend/Quizory.Api/Services/ExportImportService.cs:42-95 | The cell-writing loops produce exactly the sheet `QuizSheet` describes, failing like it on a missing quiz, a team linked twice and an invalid worksheet name |
| `ExcelExport.WriteTeamRows` | backend/Quizory.Api/Services/ExportImportService.cs:74-91 | The row loop writes each team row from row 5 downwards |
| `ExcelExport.WriteHeader` | backend/Quizory.Api/Services/ExportImportService.cs:64-73 | The header loop writes Team, the category names, Total and Rank in row 4 |
| `ExcelExport.WriteTeamRow` | backend/Quizory.Api/Services/ExportImportService.cs:77-89 | A team row holds the display name, the category points, the ranking value and the rank `row - 4` |
| `ExcelExport.WritePoints` | backend/Quizory.Api/Services/ExportImportService.cs:81-87 | The category loop writes the points from column 2 rightwards |
| `ExcelExport.QuizSheetLayout` | backend/Quizory.Api/Services/ExportImportService.cs:42-91 | An exported quiz sheet has version "1.0" and the name in row 1, the header in row 4 ending at Rank, and one row per ranked team, best first, with its display name, category points, ranking value and rank, and an empty cell below the last row |
| `ExcelExport.QuizSheetOutcome` | backend/Quizory.Api/Services/ExportImportService.cs:44-59 | The quiz export succeeds exactly when the quiz is found in the organization, no team is linked twice and the cut name is a valid worksheet name |
| `ExcelExport.QuizSheetErrors` | backend/Quizory.Api/Services/ExportImportService.cs:44-55 | A missing or foreign quiz is "Quiz not found."; a team linked twice raises the duplicate-key exception on a team id that occurs twice among the links |
| `ExcelExport.LeagueRows` | backend/Quizory.Api/Services/ExportImportService.cs:156-164 | One sheet row per ordered team |
| `ExcelExport.ExportLeague` | backend/Quizory.Api/Services/ExportImportService.cs:135-168 | The cell-writing loop produces exactly the sheet `LeagueSheet` describes, failing like it on a missing league and an invalid worksheet name |
| `ExcelExport.WriteLeagueRows` | backend/Quizory.Api/Services/ExportImportService.cs:156-164 | The row loop writes each league row from row 5 downwards |
| `ExcelExport.LeagueSheetLayout` | backend/Quizory.Api/Services/ExportImportService.cs:135-164 | A league sheet has its name and "League standings" on top, the header in row 4, and one row per team of the ordered totals with its rank, name and total |
| `ExcelExport.LeagueSheetOutcome` | backend/Quizory.Api/Services/ExportImportService.cs:137-150 | The league export succeeds exactly when the live league is found in the organization and its cut name is a valid worksheet name; otherwise "League not found." or the invalid-name exception |
| `ExcelExport.LeagueOrderFacts` | backend/Quizory.Api/Services/ExportImportService.cs:139-147 | Each league row's total is the team's summed quiz values, rows are by descending total, and exactly the teams of some league quiz appear |
| `ExcelExport.DescendingKeys` | backend/Quizory.Api/Services/ExportImportService.cs:147 | Ordering keeps each team's value and the set of teams |
| `ExcelImport.CategoryNames` | backend/Quizory.Api/Services/ExportImportService.cs:195 | The category names are the header without its first and its last column, and none for fewer than two columns |
| `ExcelImport.ReadHeader` | backend/Quizory.Api/Services/ExportImportService.cs:185-194 | The header loop reads row 4 from column 1 |
| `ExcelImport.FindCategory` | backend/Quizory.Api/Services/ExportImportService.cs:199 | Finds a live category of the organization with that name, and nothing exactly when none exists |
| `ExcelImport.FindTeam` | backend/Quizory.Api/Services/ExportImportService.cs:215 | Finds a live team of the organization with that name, and nothing exactly when none exists |
| `ExcelImport.ResolveCategories` | backend/Quizory.Api/Services/ExportImportService.cs:196-207 | Resolving the names gives one id per name, only appends categories, and uses one fresh id per created category |
| `ExcelImport.CategoryStep` | backend/Quizory.Api/Services/ExportImportService.cs:199-206 | One name adds one id and at most appends to the categories |
| `ExcelImport.ResolveTeams` | backend/Quizory.Api/Services/ExportImportService.cs:211-221 | Resolving the team names gives one id per name, only appends teams, and uses one fresh id per created team |
| `ExcelImport.TeamStep` | backend/Quizory.Api/Services/ExportImportService.cs:215-221 | One name adds one id and at most appends to the teams |
| `ExcelImport.CategoryResolved` | backend/Quizory.Api/Services/ExportImportService.cs:196-207 | Afterwards every header name finds a category whose id is the one recorded for it |
| `ExcelImport.CategoryStepKeeps` | backend/Quizory.Api/Services/ExportImportService.cs:199-206 | A step keeps earlier ids and earlier finds, and makes its own name findable under its id |
| `ExcelImport.TeamResolved` | backend/Quizory.Api/Services/ExportImportService.cs:211-221 | Afterwards every team name finds a team whose id is the one recorded for it |
| `ExcelImport.TeamStepKeeps` | backend/Quizory.Api/Services/ExportImportService.cs:215-221 | A step keeps earlier ids and earlier finds, and makes its own name findable under its id |
| `ExcelImport.CategoriesCreated` | backend/Quizory.Api/Services/ExportImportService.cs:200-205 | Every created category has a fresh id, a header name, and did not exist before |
| `ExcelImport.SameNameSameCategory` | backend/Quizory.Api/Services/ExportImportService.cs:197-206 | A name repeated in the header resolves to the same category both times |
| `ExcelImport.QuizCategoryRows` | backend/Quizory.Api/Services/ExportImportService.cs:208-209 | Link i joins the quiz to the i-th category id with order index i |
| `ExcelImport.RowEntries` | backend/Quizory.Api/Services/ExportImportService.cs:223-235 | A row gives one entry per category, whose points are the cell's integer (or 0) and whose bonus is 0 |
| `ExcelImport.ImportEntries` | backend/Quizory.Api/Services/ExportImportService.cs:210-237 | Every imported entry belongs to the quiz, a resolved team and a resolved category |
| `ExcelImport.ImportEntriesLength` | backend/Quizory.Api/Services/ExportImportService.cs:210-237 | The import stages teams × categories entries |
| `ExcelImport.LinkCategories` | backend/Quizory.Api/Services/ExportImportService.cs:208-209 | The links are tracked exactly when the category ids are distinct; they are then the ordered links |
| `ExcelImport.AddRowEntries` | backend/Quizory.Api/Services/ExportImportService.cs:223-235 | The inner loop appends one row's entries |
| `ExcelImport.AddCategories` | backend/Quizory.Api/Services/ExportImportService.cs:196-207 | The category loop resolves every name and commits each created category at once |
| `ExcelImport.FindOrCreateCategory` | backend/Quizory.Api/Services/ExportImportService.cs:199-206 | An existing category is reused unchanged; otherwise a new one with a fresh id is created and saved |
| `ExcelImport.FindOrCreateTeam` | backend/Quizory.Api/Services/ExportImportService.cs:215-221 | An existing team is reused; otherwise a new one is saved together with everything staged, exactly when that passes every index |
| `ExcelImport.AddRows` | backend/Quizory.Api/Services/ExportImportService.cs:210-237 | The row loop resolves the teams and stages their links and entries, and stops only when a save fails |
| `ExcelImport.AddRow` | backend/Quizory.Api/Services/ExportImportService.cs:213-236 | One row extends what the loop has staged by one team, its link and its entries |
| `ExcelImport.RowsFailEarly` | backend/Quizory.Api/Services/ExportImportService.cs:210-238 | Once the staged rows break an index, the full import breaks it too |
| `ExcelImport.Import` | backend/Quizory.Api/Services/ExportImportService.cs:170-245 | A wrong version or date changes nothing and reports it; otherwise success exactly when the categories are distinct and the planned tables pass every index, with those tables committed, and the failure message of the tracker or the database otherwise |
| `ExcelImport.ImportQuiz` | backend/Quizory.Api/Services/ExportImportService.cs:183-239 | After version and date, the import follows the category fold and then the team fold |
| `ExcelImport.ImportRows` | backend/Quizory.Api/Services/ExportImportService.cs:210-239 | The rows and the final save succeed exactly when the planned tables pass every index |
| `Reimport.HeaderReadsBack` | backend/Quizory.Api/Services/ExportImportService.cs:185-195 | A header Team, names…, Total, Rank is read as the names followed by "Total" |
| `Reimport.ExportedHeaderReadsBack` | backend/Quizory.Api/Services/ExportImportService.cs:64-73 | The header of an exported quiz reads back as its category names plus "Total" |
| `Reimport.ExportedQuizAddsTotal` | backend/Quizory.Api/Services/ExportImportService.cs:195-207 | Importing an exported quiz resolves one more category than it had, named "Total" |
| `Reimport.TemplateDropsLastCategory` | backend/Quizory.Api/Services/ExportImportService.cs:23-40 | Importing the template reads only "Category1" and one team, "Team A", with 0 points |
| `Reimport.RepeatedCategoryConflicts` | backend/Quizory.Api/Services/ExportImportService.cs:208-209 | A header naming a category twice always fails with the tracking-conflict message |
| `Reimport.RepeatedTeamClashes` | backend/Quizory.Api/Services/ExportImportService.cs:222-235 | A team listed twice stages two entries with the same key |
| `Reimport.RepeatedTeamFails` | backend/Quizory.Api/Services/ExportImportService.cs:210-238 | A sheet listing a team twice (with at least one category) never imports |

## Left out

- `Statistics.GetCategoryStatsAsync` (`StatisticsService.cs:66-90`) averages `double` totals. Floating point is not modelled.
- The PDF export (`ExportImportService.cs:97-133`) renders a document through a layout library.
- `GetPaymentAsync`, `ListPaymentsAsync` and `ToDto` (`PaymentService.cs:44-56, 83-85`) are read-only projections. Their lookup is `Payments.FindById`, and their paging is `Ordering.Page`.
- `GetMembers` and the other read endpoints of `OrganizationsController.cs` are read-only projections. Their paging is `Ordering.Page`.
- `SetPreferredLanguage` (`OrganizationsController.cs:115-125`) is a one-field update outside the subscription and membership rules.
- The other controllers, `TrialReminderService`, `AuditService`, `SeedData` and `Program` are not part of this model.
- The older subscription service class in `AppServices.cs:57-86` is not modelled. `SubscriptionService.cs` replaces it.
- The request-context accessor's header parsing (`AppServices.cs:16-24`) is left out. The model receives a `RequestContext`, and only the language choice is modelled.
- Sending e-mails is not modelled.
- JWT generation is not modelled, and `AuthOk` carries no token.
- BCrypt hashing and verification are parameters: a hash string, and a `verify` function.
- Random token generation is a parameter. The model adds the token and then lets the unique index decide.
- `DateTime.UtcNow`, the start of the month, `DateTime.TryParse` and `ToString("yyyy-MM-dd")` are parameters. Time is integer seconds.
- `Guid.NewGuid()` is a counter. `winner.Key == Guid.Empty` is modelled as "no winner".
- The surrogate ids of `QuizTeam`, `HelpUsage` and `ScoreEntry` rows are not modelled, because nothing looks them up by id.
- The row id of `PublicShareToken` is not modelled either.
- The declarations of `Payment`, `PublicShareToken`, `EmailVerificationToken`, `PasswordResetToken`, `QuizCategory` and `QuizTeam.AliasInQuiz` are not part of this model. Their fields come from their uses in the services.
- Queries without `OrderBy` return rows in table (insertion) order, where the database leaves the order unspecified.
- SQL `OrderByDescending` on dates is the stable LINQ sort.
- Dictionaries enumerate in insertion order.
- Concurrent requests, transactions and the asynchronous execution of the services are not modelled.
- The exceptions modelled are the ones the code throws or reaches: the error results, the duplicate-key failures of `SaveChanges` and of `ToDictionaryAsync`, the `ArgumentException` of `Worksheets.Add` for an empty name or one with `: \ / ? * [ ]`, and the null reference of `Find(...)!`. Other exceptions of the libraries are not modelled.
- Scoring.ComputeRanking: totals are unbounded integers. `Sum` over `int` throws on 32-bit overflow, and doubling a total can wrap around; neither is modelled.
- Enums.ParseRole: `Enum.Parse` also accepts undefined numbers (such as "7") and comma-separated lists of names. The model rejects both. Its case-insensitive match folds ASCII letters only, where .NET also folds other letters.
- Enums.ParsePlan: `Enum.TryParse` also accepts undefined numbers and comma-separated lists. The model rejects both. Its case-insensitive match folds ASCII letters only.
- Text.UpperChar: upper-cases ASCII letters only. `ToUpperInvariant` also maps other letters (such as 'š' to 'Š'); the Unicode case tables are not modelled.
- Text.ToUpper: inherits the ASCII-only upper-casing of `Text.UpperChar`.
- Payments.NormalizeCurrency: trims with .NET's white-space characters, but upper-cases ASCII letters only (see `Text.UpperChar`).
- Text.ParseInt32: reads an optional sign and decimal digits. The leading and trailing white space, thousands separators and culture-specific signs that `int.Parse` can accept are not modelled.
- Statistics.AddPoints: the league totals are unbounded integers. `GetValueOrDefault(teamId, 0) + points` at `StatisticsService.cs:56` is unchecked 32-bit `int` arithmetic and wraps around on overflow.
- Statistics.AccumulateValue: sums without 32-bit wrap-around, for the same reason.
- Statistics.LeagueTotalIsSum: the sum it states is the unbounded one, for the same reason.
- ExcelExport.LeagueSheet: its totals come from the same unbounded sums; `ExportImportService.cs:145` adds unchecked 32-bit `int`s.
- ExcelExport.ExportLeague: sums like `ExcelExport.LeagueSheet`, without wrap-around.
- ExcelExport.EntryPoints: `Points + BonusPoints` at `ExportImportService.cs:84` is unchecked 32-bit `int` arithmetic; the model adds without wrap-around.
- ExcelExport.CategoryColumns: in the fallback case (no linked category) the contract says which categories are columns, not their order; the model keeps the order of first appearance among the entries, where the database leaves it unspecified.
- ExcelExport.QuizSheet: the worksheet-name check covers empty names and the characters `: \ / ? * [ ]`. Whether a name that starts or ends with an apostrophe is refused depends on the ClosedXML version and is not modelled; neither is the exact wording of the exception message.
- ExcelExport.LeagueSheet: the same worksheet-name check and limits as `ExcelExport.QuizSheet`.
- Store.Db.SaveChanges: enforces the unique indexes that `AppDbContext.cs` declares, as a relational provider does. `Program.cs:9` configures `UseInMemoryDatabase`, which enforces primary keys only; under that configuration a repeated team name on import (two score entries with one key), a second membership of the same user, a second help usage or a colliding token is stored instead of refused. The quiz-category key is a primary key (`AppDbContext.cs:60`), so a repeated category is refused either way.
- ExcelImport.Import: on failure the contract says only that the store stays valid. The service commits every category and team it had to create before the failing save, and those intermediate commits are not stated.
- ExcelImport.ImportQuiz: on failure the store is only known to be valid, for the same reason.
- ExcelImport.ImportRows: on failure the store is only known to be valid, for the same reason.
- ExcelImport.AddRows: a failed row is only known to make the final tables break an index. What was committed before the failure is not stated.
- Sheets.TryGetInt: a text cell is read with the model's 32-bit integer parser. ClosedXML's culture-dependent conversions (decimals, thousands separators, booleans) are not modelled, and the contract does not state the text case.
- `Store.Stamp` and `Store.StampTracked` state the `UpdatedAtUtc` rule of `SaveChanges`, but the services' saves are modelled by `Db.SaveChanges` on explicitly updated rows.
- The Serbian message texts are modelled with "š", not with the mis-encoded bytes of `AppServices.cs:124`.

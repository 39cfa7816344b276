/** The enumerations read from request text, as `Enum.Parse` and
    `Enum.TryParse` with `ignoreCase: true` read them: surrounding whitespace
    is ignored, a member name matches in any letter case, and a decimal number
    names the member with that value. */
module Enums {
  import opened Wrappers
  import opened Domain
  import Text

  /** The member names, as `ToString()` writes them. */
  function RoleName(r: Role): string {
    match r
    case Owner => "Owner"
    case Admin => "Admin"
    case User => "User"
  }

  function PlanName(p: Plan): string {
    match p
    case Free => "Free"
    case Trial => "Trial"
    case Premium => "Premium"
  }

  function PlanOrdinal(p: Plan): nat {
    match p
    case Free => 0
    case Trial => 1
    case Premium => 2
  }

  /** The trimmed text `v` names role `r`: by its name in any letter case, or
      by its integer value. */
  predicate NamesRole(v: string, r: Role) {
    Text.EqualsIgnoreCase(v, RoleName(r)) || Text.ParseInt32(v) == Some(RoleOrdinal(r) as int)
  }

  predicate NamesPlan(v: string, p: Plan) {
    Text.EqualsIgnoreCase(v, PlanName(p)) || Text.ParseInt32(v) == Some(PlanOrdinal(p) as int)
  }

  /** `Enum.TryParse<OrganizationRole>(text, true)`: the role the text names,
      or nothing when it names none. */
  function ParseRole(text: string): (r: Option<Role>)
    ensures forall role :: r == Some(role) <==> NamesRole(Text.Trim(text), role)
  {
    var v := Text.Trim(text);
    NamesRoleUnique(v);
    if NamesRole(v, Owner) then Some(Owner)
    else if NamesRole(v, Admin) then Some(Admin)
    else if NamesRole(v, Role.User) then Some(Role.User)
    else None
  }

  /** `Enum.TryParse<SubscriptionPlan>(text, true)`. */
  function ParsePlan(text: string): (r: Option<Plan>)
    ensures forall plan :: r == Some(plan) <==> NamesPlan(Text.Trim(text), plan)
  {
    var v := Text.Trim(text);
    NamesPlanUnique(v);
    if NamesPlan(v, Free) then Some(Free)
    else if NamesPlan(v, Trial) then Some(Trial)
    else if NamesPlan(v, Premium) then Some(Premium)
    else None
  }

  /** A text that matches a name ignoring case starts with a letter, so it is
      not a number. */
  lemma NameIsNotNumber(v: string, name: string)
    requires Text.EqualsIgnoreCase(v, name)
    requires |name| > 0 && 'A' <= name[0] <= 'Z'
    ensures Text.ParseInt32(v) == None
  {
    assert Text.LowerChar(v[0]) == Text.LowerChar(name[0]);
    assert !Text.IsDigit(v[0]) && v[0] != '-' && v[0] != '+';
    assert !Text.AllDigits(v);
  }

  /** No text names two roles. */
  lemma NamesRoleUnique(v: string)
    ensures forall a, b :: NamesRole(v, a) && NamesRole(v, b) ==> a == b
  {
    forall a, b | NamesRole(v, a) && NamesRole(v, b) ensures a == b {
      if Text.EqualsIgnoreCase(v, RoleName(a)) {
        NameIsNotNumber(v, RoleName(a));
        assert Text.EqualsIgnoreCase(v, RoleName(b));
        assert Text.LowerChar(RoleName(a)[0]) == Text.LowerChar(v[0]) == Text.LowerChar(RoleName(b)[0]);
      } else if Text.EqualsIgnoreCase(v, RoleName(b)) {
        NameIsNotNumber(v, RoleName(b));
      }
    }
  }

  /** No text names two plans. */
  lemma NamesPlanUnique(v: string)
    ensures forall a, b :: NamesPlan(v, a) && NamesPlan(v, b) ==> a == b
  {
    forall a, b | NamesPlan(v, a) && NamesPlan(v, b) ensures a == b {
      if Text.EqualsIgnoreCase(v, PlanName(a)) {
        NameIsNotNumber(v, PlanName(a));
        assert Text.EqualsIgnoreCase(v, PlanName(b));
        assert Text.LowerChar(PlanName(a)[0]) == Text.LowerChar(v[0]) == Text.LowerChar(PlanName(b)[0]);
      } else if Text.EqualsIgnoreCase(v, PlanName(b)) {
        NameIsNotNumber(v, PlanName(b));
      }
    }
  }

  /** A text without surrounding whitespace is its own trimming. */
  lemma TrimmedAlready(s: string)
    requires |s| > 0 && !Text.IsWhiteSpace(s[0]) && !Text.IsWhiteSpace(s[|s| - 1])
    ensures Text.Trim(s) == s
  {
    Text.TrimStartOfNonBlank(s);
    Text.TrimEndOfNonBlank(s);
  }

  /** What `ToString()` writes, `Parse` reads back, in any letter case, and so
      does the member's integer value. */
  lemma ParseRoleRoundTrip(r: Role)
    ensures ParseRole(RoleName(r)) == Some(r)
    ensures ParseRole(Text.ToUpper(RoleName(r))) == Some(r)
    ensures ParseRole(Text.IntToString(RoleOrdinal(r))) == Some(r)
  {
    NameReadsBack(RoleName(r));
    assert NamesRole(Text.Trim(RoleName(r)), r);
    assert NamesRole(Text.Trim(Text.ToUpper(RoleName(r))), r);
    NumberReadsBack(RoleOrdinal(r));
  }

  lemma ParsePlanRoundTrip(p: Plan)
    ensures ParsePlan(PlanName(p)) == Some(p)
    ensures ParsePlan(Text.ToUpper(PlanName(p))) == Some(p)
    ensures ParsePlan(Text.IntToString(PlanOrdinal(p))) == Some(p)
  {
    NameReadsBack(PlanName(p));
    assert NamesPlan(Text.Trim(PlanName(p)), p);
    assert NamesPlan(Text.Trim(Text.ToUpper(PlanName(p))), p);
    NumberReadsBack(PlanOrdinal(p));
  }

  /** A member name, as written or upper-cased, trims to a text equal to it
      ignoring case. */
  lemma NameReadsBack(name: string)
    requires |name| > 0 && !Text.IsWhiteSpace(name[0]) && !Text.IsWhiteSpace(name[|name| - 1])
    ensures Text.EqualsIgnoreCase(Text.Trim(name), name)
    ensures Text.EqualsIgnoreCase(Text.Trim(Text.ToUpper(name)), name)
  {
    TrimmedAlready(name);
    TrimmedAlready(Text.ToUpper(name));
    Text.UpperEqualsIgnoreCase(name, name);
  }

  /** A member value, written in decimal, trims and parses to itself. */
  lemma NumberReadsBack(n: nat)
    requires n < 10
    ensures Text.ParseInt32(Text.Trim(Text.IntToString(n))) == Some(n)
  {
    var digits := Text.IntToString(n);
    assert digits == [Text.DigitChar(n)];
    TrimmedAlready(digits);
    Text.ParseIntToString(n);
  }

  /** Parsing ignores letter case altogether. */
  lemma ParseRoleIgnoresCase(text: string)
    ensures ParseRole(Text.ToUpper(text)) == ParseRole(text)
  {
    var v := Text.Trim(text);
    var u := Text.ToUpper(v);
    Text.TrimUpper(text);
    Text.ParseInt32Upper(v);
    forall role ensures NamesRole(u, role) <==> NamesRole(v, role) {
      Text.UpperEqualsIgnoreCase(v, RoleName(role));
    }
  }
}

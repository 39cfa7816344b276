/** The payment service: an Owner records a pending payment for the Premium
    plan, and confirming a pending payment completes it and switches the
    organization to Premium. A payment moves from Pending to Completed once
    and never back. */
module Payments {
  import opened Wrappers
  import opened Domain
  import opened Store
  import Authorization
  import Subscription
  import Enums
  import Text

  /** The currency stored with a payment: "EUR" for a missing or blank
      input, otherwise the input trimmed and upper-cased. */
  function NormalizeCurrency(currency: Option<string>): (c: string)
    ensures c != [] && !Text.IsWhiteSpace(c[0]) && !Text.IsWhiteSpace(c[|c| - 1])
    ensures forall i :: 0 <= i < |c| ==> !('a' <= c[i] <= 'z')
    ensures Text.IsNullOrWhiteSpace(currency) ==> c == "EUR"
  {
    if Text.IsNullOrWhiteSpace(currency) then "EUR"
    else
      var t := Text.Trim(currency.value);
      UpperOfTrimmed(t);
      Text.ToUpper(t)
  }

  /** Upper-casing a trimmed, non-empty text keeps it trimmed and non-empty
      and leaves no lower-case letter. */
  lemma UpperOfTrimmed(t: string)
    requires t != [] && !Text.IsWhiteSpace(t[0]) && !Text.IsWhiteSpace(t[|t| - 1])
    ensures var u := Text.ToUpper(t);
      && u != [] && !Text.IsWhiteSpace(u[0]) && !Text.IsWhiteSpace(u[|u| - 1])
      && forall i :: 0 <= i < |u| ==> !('a' <= u[i] <= 'z')
  {
    var u := Text.ToUpper(t);
    assert u[0] == Text.UpperChar(t[0]) && u[|u| - 1] == Text.UpperChar(t[|t| - 1]);
  }

  /** A stored currency is already normal: normalizing it again changes
      nothing. */
  lemma NormalizeCurrencyIdempotent(currency: Option<string>)
    ensures NormalizeCurrency(Some(NormalizeCurrency(currency))) == NormalizeCurrency(currency)
  {
    var c := NormalizeCurrency(currency);
    Text.TrimStartOfNonBlank(c);
    Text.TrimEndOfNonBlank(c);
    assert Text.Trim(c) == c;
    assert Text.ToUpper(c) == c;
  }

  // Creating a payment.

  /** The checks `CreatePaymentAsync` makes before it adds the row, in their
      order: the caller's organization, the Owner role, the organization,
      the plan name, the plan, the amount. */
  function CreateGuards(t: Tables, ctx: RequestContext, orgId: Id, plan: string, amount: real): (r: Outcome<Error>)
    ensures r.Pass? <==>
      && ctx.orgId == orgId && ctx.role == Owner
      && FindOrganization(t.organizations, orgId).Some?
      && Enums.ParsePlan(plan) == Some(Premium)
      && amount > 0.0
    ensures Subscription.OwnerGuard(ctx, orgId).Fail? ==> r == Subscription.OwnerGuard(ctx, orgId)
    ensures (Subscription.OwnerGuard(ctx, orgId).Pass? && FindOrganization(t.organizations, orgId).Some?
             && Enums.ParsePlan(plan).None?) ==> r == Fail(InvalidArgument(InvalidPlanMessage))
  {
    if Subscription.OwnerGuard(ctx, orgId).Fail? then Subscription.OwnerGuard(ctx, orgId)
    else if FindOrganization(t.organizations, orgId).None?
    then Fail(InvalidOperation(Authorization.T(ctx.language, "OrganizationNotFound")))
    else if Enums.ParsePlan(plan).None? then Fail(InvalidArgument(InvalidPlanMessage))
    else if Enums.ParsePlan(plan) != Some(Premium)
    then Fail(InvalidOperation(Authorization.T(ctx.language, "PaymentOnlyForPremium")))
    else if amount <= 0.0 then Fail(InvalidOperation(Authorization.T(ctx.language, "PaymentAmountInvalid")))
    else Pass
  }

  /** The message of the `ArgumentException` for a plan name that names no
      plan; it is not localized. */
  const InvalidPlanMessage: string := "Invalid plan."

  /** `CreatePaymentAsync(organizationId, request)`: after the checks, a
      pending Premium payment of the amount in the normalized currency, with
      a fresh identifier and no external id. */
  method CreatePayment(db: Db, ctx: RequestContext, orgId: Id, plan: string, amount: real, currency: Option<string>, now: Time)
    returns (r: Result<Payment, Error>)
    requires db.Valid()
    modifies db`tables, db`nextId
    ensures db.Valid()
    ensures var g := CreateGuards(old(db.tables), ctx, orgId, plan, amount);
      && (r.Ok? <==> g.Pass?)
      && (r.Err? ==> r.error == g.error && db.tables == old(db.tables))
      && (r.Ok? ==>
            && r.value == Payment(old(db.nextId), orgId, amount, NormalizeCurrency(currency), Pending, Premium, None, now, None)
            && db.tables == old(db.tables).(payments := old(db.tables.payments) + [r.value]))
  {
    var g := CreateGuards(db.tables, ctx, orgId, plan, amount);
    if g.Fail? {
      return Err(g.error);
    }
    var id := db.NewId();
    var payment := Payment(id, orgId, amount, NormalizeCurrency(currency), Pending, Premium, None, now, None);
    var staged := db.tables.(payments := db.tables.payments + [payment]);
    assert Indexed(staged);
    var saved := db.SaveChanges(staged);
    r := Ok(payment);
  }

  // Confirming a payment.

  /** The first payment of the organization with identifier `id`. */
  function FindById(payments: seq<Payment>, orgId: Id, id: Id): (r: Option<nat>)
    ensures r.Some? ==> r.value < |payments| && payments[r.value].id == id && payments[r.value].orgId == orgId
    ensures r.Some? ==> forall k :: 0 <= k < r.value ==> payments[k].id != id || payments[k].orgId != orgId
    ensures r.None? <==> forall k :: 0 <= k < |payments| ==> payments[k].id != id || payments[k].orgId != orgId
  {
    if payments == [] then None
    else
      var i := |payments| - 1;
      var r := FindById(payments[..i], orgId, id);
      if r.Some? then r
      else if payments[i].id == id && payments[i].orgId == orgId then Some(i)
      else None
  }

  /** The first payment of the organization with external id `externalId`. */
  function FindByExternalId(payments: seq<Payment>, orgId: Id, externalId: string): (r: Option<nat>)
    ensures r.Some? ==> r.value < |payments| && payments[r.value].externalId == Some(externalId) && payments[r.value].orgId == orgId
    ensures r.Some? ==> forall k :: 0 <= k < r.value ==> payments[k].externalId != Some(externalId) || payments[k].orgId != orgId
    ensures r.None? <==> forall k :: 0 <= k < |payments| ==> payments[k].externalId != Some(externalId) || payments[k].orgId != orgId
  {
    if payments == [] then None
    else
      var i := |payments| - 1;
      var r := FindByExternalId(payments[..i], orgId, externalId);
      if r.Some? then r
      else if payments[i].externalId == Some(externalId) && payments[i].orgId == orgId then Some(i)
      else None
  }

  /** The payment `ConfirmPaymentAsync` acts on: the one with the given
      identifier when there is one, otherwise the one with the given
      external id when that is not blank. */
  function ConfirmTarget(payments: seq<Payment>, orgId: Id, paymentId: Option<Id>, externalId: Option<string>): (r: Option<nat>)
    ensures r.Some? ==> r.value < |payments| && payments[r.value].orgId == orgId
    ensures paymentId.Some? && FindById(payments, orgId, paymentId.value).Some? ==> r == FindById(payments, orgId, paymentId.value)
    ensures r.None? <==>
      && (paymentId.None? || FindById(payments, orgId, paymentId.value).None?)
      && (Text.IsNullOrWhiteSpace(externalId) || FindByExternalId(payments, orgId, externalId.value).None?)
  {
    var byId := if paymentId.Some? then FindById(payments, orgId, paymentId.value) else None;
    if byId.Some? then byId
    else if !Text.IsNullOrWhiteSpace(externalId) then FindByExternalId(payments, orgId, externalId.value)
    else None
  }

  /** The payment after `ConfirmPaymentAsync` and its position, nothing when
      no payment matches, or why it fails. */
  function ConfirmStep(ctx: RequestContext, orgId: Id, payments: seq<Payment>, paymentId: Option<Id>, externalId: Option<string>, now: Time)
    : (r: Result<Option<(nat, Payment)>, Error>)
    ensures Subscription.OwnerGuard(ctx, orgId).Fail? ==> r == Err(Subscription.OwnerGuard(ctx, orgId).error)
    ensures r == Ok(None) <==> Subscription.OwnerGuard(ctx, orgId).Pass? && ConfirmTarget(payments, orgId, paymentId, externalId).None?
    ensures r.Ok? && r.value.Some? ==>
      var (i, p) := r.value.value;
      && ConfirmTarget(payments, orgId, paymentId, externalId) == Some(i)
      && payments[i].status == Pending
      && p == payments[i].(status := Completed, completedAt := Some(now))
    ensures Subscription.OwnerGuard(ctx, orgId).Pass? && ConfirmTarget(payments, orgId, paymentId, externalId).Some?
      && payments[ConfirmTarget(payments, orgId, paymentId, externalId).value].status != Pending
      ==> r == Err(InvalidOperation(Authorization.T(ctx.language, "PaymentAlreadyProcessed")))
  {
    if Subscription.OwnerGuard(ctx, orgId).Fail? then Err(Subscription.OwnerGuard(ctx, orgId).error)
    else
      var target := ConfirmTarget(payments, orgId, paymentId, externalId);
      if target.None? then Ok(None)
      else if payments[target.value].status != Pending
      then Err(InvalidOperation(Authorization.T(ctx.language, "PaymentAlreadyProcessed")))
      else Ok(Some((target.value, payments[target.value].(status := Completed, completedAt := Some(now)))))
  }

  /** Completing a payment keeps its identifier, organization and external
      id, so both lookups find the same position afterwards. */
  lemma TargetStable(payments: seq<Payment>, orgId: Id, paymentId: Option<Id>, externalId: Option<string>, i: nat, p: Payment)
    requires i < |payments| && p.id == payments[i].id && p.orgId == payments[i].orgId && p.externalId == payments[i].externalId
    ensures ConfirmTarget(payments[i := p], orgId, paymentId, externalId) == ConfirmTarget(payments, orgId, paymentId, externalId)
  {
    if paymentId.Some? {
      FindByIdStable(payments, orgId, paymentId.value, i, p);
    }
    if !Text.IsNullOrWhiteSpace(externalId) {
      FindByExternalIdStable(payments, orgId, externalId.value, i, p);
    }
  }

  lemma FindByIdStable(payments: seq<Payment>, orgId: Id, id: Id, i: nat, p: Payment)
    requires i < |payments| && p.id == payments[i].id && p.orgId == payments[i].orgId
    ensures FindById(payments[i := p], orgId, id) == FindById(payments, orgId, id)
  {
    var after := payments[i := p];
    assert forall k :: 0 <= k < |after| ==> after[k].id == payments[k].id && after[k].orgId == payments[k].orgId;
  }

  lemma FindByExternalIdStable(payments: seq<Payment>, orgId: Id, externalId: string, i: nat, p: Payment)
    requires i < |payments| && p.externalId == payments[i].externalId && p.orgId == payments[i].orgId
    ensures FindByExternalId(payments[i := p], orgId, externalId) == FindByExternalId(payments, orgId, externalId)
  {
    var after := payments[i := p];
    assert forall k :: 0 <= k < |after| ==> after[k].externalId == payments[k].externalId && after[k].orgId == payments[k].orgId;
  }

  /** A payment is confirmed once: confirming it again, by the same
      identifiers and at any later time, reports it as already processed. */
  lemma {:induction false} ConfirmOnce(
    ctx: RequestContext, orgId: Id, payments: seq<Payment>, paymentId: Option<Id>, externalId: Option<string>, now: Time, later: Time)
    requires ConfirmStep(ctx, orgId, payments, paymentId, externalId, now).Ok?
    requires ConfirmStep(ctx, orgId, payments, paymentId, externalId, now).value.Some?
    ensures var (i, p) := ConfirmStep(ctx, orgId, payments, paymentId, externalId, now).value.value;
      ConfirmStep(ctx, orgId, payments[i := p], paymentId, externalId, later)
        == Err(InvalidOperation(Authorization.T(ctx.language, "PaymentAlreadyProcessed")))
  {
    var (i, p) := ConfirmStep(ctx, orgId, payments, paymentId, externalId, now).value.value;
    TargetStable(payments, orgId, paymentId, externalId, i, p);
  }

  /** A payment just created, under an identifier no earlier payment has, is
      the one its Owner confirms by that identifier, and confirming it
      completes it. */
  lemma CreatedIsConfirmable(
    ctx: RequestContext, payments: seq<Payment>, p: Payment, externalId: Option<string>, now: Time)
    requires ctx.orgId == p.orgId && ctx.role == Owner
    requires p.status == Pending
    requires forall q :: q in payments ==> q.id < p.id
    ensures ConfirmStep(ctx, p.orgId, payments + [p], Some(p.id), externalId, now)
         == Ok(Some((|payments|, p.(status := Completed, completedAt := Some(now)))))
  {
    var all := payments + [p];
    assert all[|payments|] == p;
    assert forall k :: 0 <= k < |payments| ==> all[k] in payments;
  }

  /** `ConfirmPaymentAsync(organizationId, paymentId, externalPaymentId)`:
      completes the pending payment it finds and saves it, then switches the
      organization to Premium. When the organization is missing the switch
      fails after the payment was saved, and the completed payment stays. */
  method ConfirmPayment(db: Db, ctx: RequestContext, orgId: Id, paymentId: Option<Id>, externalId: Option<string>, now: Time)
    returns (r: Result<Option<Payment>, Error>)
    requires db.Valid()
    modifies db`tables
    ensures db.Valid()
    ensures var step := ConfirmStep(ctx, orgId, old(db.tables.payments), paymentId, externalId, now);
      && (step.Err? ==> r == Err(step.error) && db.tables == old(db.tables))
      && (step == Ok(None) ==> r == Ok(None) && db.tables == old(db.tables))
      && (step.Ok? && step.value.Some? ==>
            var (i, p) := step.value.value;
            var paid := old(db.tables).(payments := old(db.tables.payments)[i := p]);
            var j := FindOrganization(paid.organizations, orgId);
            && (j.Some? ==>
                  && r == Ok(Some(p))
                  && db.tables == paid.(organizations := paid.organizations[j.value :=
                       paid.organizations[j.value].(plan := Premium, trialEndsAt := None, updatedAt := now)]))
            && (j.None? ==>
                  && r == Err(InvalidOperation(Authorization.T(ctx.language, "OrganizationNotFound")))
                  && db.tables == paid))
  {
    var step := ConfirmStep(ctx, orgId, db.tables.payments, paymentId, externalId, now);
    if step.Err? {
      return Err(step.error);
    }
    if step.value.None? {
      return Ok(None);
    }
    var (i, p) := step.value.value;
    var staged := db.tables.(payments := db.tables.payments[i := p]);
    assert forall q :: q in staged.payments ==> q == p || q in db.tables.payments;
    assert Indexed(staged);
    var saved := db.SaveChanges(staged);
    var premium := Subscription.SetPremium(db, ctx, orgId, now);
    if premium.Fail? {
      return Err(premium.error);
    }
    r := Ok(Some(p));
  }
}

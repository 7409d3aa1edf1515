/** The installment calls, statement by statement, over the same tables as the ledger. */
module InstallmentRepository {
  import opened Common
  import opened Ledger
  import opened Installments
  import TransactionRepository

  datatype InstallmentError = Invalid(reason: PlanError) | NotFound | NotPosted | ConstraintViolated

  class InstallmentRepository {
    const transactions: TransactionRepository.TransactionRepository
    var plans: map<Id, Plan>
    var payments: map<Id, PaymentRecord>

    constructor (ledger: TransactionRepository.TransactionRepository, stored: map<Id, Plan>)
      ensures transactions == ledger && plans == stored && payments == map[]
    {
      transactions, plans, payments := ledger, stored, map[];
    }

    /** The checks before a plan is written, in order. */
    method CheckPlan(userID: Id, plan: Plan) returns (error: Option<InstallmentError>)
      ensures error.None? && plan.status != UNSET_STATUS <==> Writable(transactions.db, userID, plan)
    {
      var invalid := ValidatePlan(plan.totalMinor, plan.monthlyMinor, plan.tenorMonths);
      if invalid.Some? {
        return Some(Invalid(invalid.value));
      }
      if !CanRecord(transactions.db, userID, plan.walletID)
         || !OwnsCategory(transactions.db, userID, plan.categoryID, Expense)
      {
        return Some(NotFound);
      }
      var resolved := ResolveRemainingAndStatus(plan.tenorMonths, Some(plan.remainingMonths), plan.status);
      return if resolved.Err? then Some(Invalid(resolved.error)) else None;
    }

    method Create(userID: Id, id: Id, plan: Plan) returns (error: Option<InstallmentError>)
      modifies this`plans
      ensures
        var stored := plan.(userID := userID, status := if plan.status == UNSET_STATUS then Active else plan.status);
        && (error.None? <==> id !in old(plans) && Writable(transactions.db, userID, stored))
        && plans == if error.None? then old(plans)[id := stored] else old(plans)
    {
      var stored := plan.(userID := userID, status := if plan.status == UNSET_STATUS then Active else plan.status);
      error := CheckPlan(userID, stored);
      if error.Some? {
        return;
      }
      if id in plans {
        return Some(ConstraintViolated);
      }
      plans := plans[id := stored];
    }

    /** An update keeps no default for an empty status: it passes the checks and the table refuses it. */
    method Update(userID: Id, id: Id, plan: Plan) returns (error: Option<InstallmentError>)
      modifies this`plans
      ensures
        var stored := plan.(userID := userID);
        && (error.None? <==>
              id in old(plans) && old(plans)[id].userID == userID && Writable(transactions.db, userID, stored))
        && plans == if error.None? then old(plans)[id := stored] else old(plans)
    {
      var stored := plan.(userID := userID);
      error := CheckPlan(userID, stored);
      if error.Some? {
        return;
      }
      if id !in plans || plans[id].userID != userID {
        return Some(NotFound);
      }
      if stored.status == UNSET_STATUS {
        return Some(ConstraintViolated);
      }
      plans := plans[id := stored];
    }

    /** Under the plan's row lock: posts one month's expense, records it and counts the months down; a
        failure leaves every table as it was. */
    method Pay(userID: Id, id: Id, txID: Id, paidAt: Instant,
        note: string) returns (r: Result<PaymentState, InstallmentError>)
      modifies this, transactions
      ensures r.Ok? <==> PaySucceeds(old(transactions.db), old(plans), userID, id, txID, paidAt, note)
      ensures r.Err? ==> transactions.db == old(transactions.db) && plans == old(plans) && payments == old(payments)
      ensures r.Ok? ==>
        var plan := old(plans)[id];
        && transactions.db == AfterCreate(old(transactions.db), userID, txID, PaymentPosting(plan, paidAt, note))
        && plans == old(plans)[id := PaidPlan(plan)]
        && payments == old(payments)[txID := PaymentRecord(userID, id, plan.monthlyMinor, paidAt, note)]
        && Ok(r.value) == ApplyPayment(plan.State())
    {
      if id !in plans || plans[id].userID != userID {
        return Err(NotFound);
      }
      var plan := plans[id];
      var next := ApplyPayment(plan.State());
      if next.Err? {
        return Err(Invalid(next.error));
      }
      var begun := transactions.db;
      var created := transactions.CreateInTx(userID, txID, PaymentPosting(plan, paidAt, note));
      if created.Err? {
        transactions.db := begun;
        return Err(NotPosted);
      }
      payments := payments[txID := PaymentRecord(userID, id, plan.monthlyMinor, paidAt, note)];
      plans := plans[id := plan.(remainingMonths := next.value.remainingMonths, status := next.value.status)];
      return Ok(next.value);
    }
  }
}

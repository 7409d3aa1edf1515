/** Installment plans: validation in 64-bit arithmetic and the payment state machine. What plans charge
    over whole runs is in InstallmentRuns.dfy. */
module Installments {
  import opened Common
  import opened Ledger

  datatype PlanStatus = Active | PaidOff | Cancelled | OtherStatus(text: string)

  const UNSET_STATUS: PlanStatus := OtherStatus("")

  datatype PlanError =
    | TotalNotPositive | MonthlyNotPositive | TenorNotPositive | TotalMismatch
    | StatusInvalid | RemainingOutOfRange | ActiveWithoutRemaining | PaidOffWithRemaining
    | NotActive | NothingRemaining

  /** The product check of the plan in 64-bit arithmetic: a division guards the multiplication. */
  function ValidatePlan(totalMinor: int64, monthlyMinor: int64, tenorMonths: int64): (error: Option<PlanError>)
  {
    if totalMinor <= 0 then Some(TotalNotPositive)
    else if monthlyMinor <= 0 then Some(MonthlyNotPositive)
    else if tenorMonths <= 0 then Some(TenorNotPositive)
    else if monthlyMinor > MAX_INT64 / tenorMonths || Wrap64(monthlyMinor * tenorMonths) != totalMinor
    then Some(TotalMismatch)
    else None
  }

  lemma {:induction false} DivisionGuard(a: int, b: int, max: int)
    requires a > 0 && b > 0 && max > 0
    ensures a > max / b <==> a * b > max
  {
    var q := max / b;
    assert q * b <= max < q * b + b;
    if a > q {
      assert a * b >= (q + 1) * b;
    } else {
      assert a * b <= q * b;
    }
  }

  /** A plan is accepted exactly when its exact product is its total: the guard lets no overflow through
      and turns no exact plan away. */
  lemma {:induction false} PlanIsExact(totalMinor: int64, monthlyMinor: int64, tenorMonths: int64)
    ensures ValidatePlan(totalMinor, monthlyMinor, tenorMonths).None?
       <==> monthlyMinor > 0 && tenorMonths > 0 && monthlyMinor * tenorMonths == totalMinor
  {
    if monthlyMinor > 0 && tenorMonths > 0 {
      DivisionGuard(monthlyMinor, tenorMonths, MAX_INT64);
      assert monthlyMinor * tenorMonths > 0;
    }
  }

  datatype PaymentState = PaymentState(remainingMonths: int, status: PlanStatus)

  function ApplyPayment(state: PaymentState): Result<PaymentState, PlanError> {
    if state.status != Active then Err(NotActive)
    else if state.remainingMonths <= 0 then Err(NothingRemaining)
    else
      var remaining := state.remainingMonths - 1;
      Ok(PaymentState(remaining, if remaining == 0 then PaidOff else Active))
  }

  function ResolveRemainingAndStatus(tenorMonths: int, remainingMonths: Option<int>, status: PlanStatus)
    : Result<PaymentState, PlanError>
  {
    var known := if status == UNSET_STATUS then Active else status;
    var remaining := if remainingMonths.Some? then remainingMonths.value else tenorMonths;
    if tenorMonths <= 0 then Err(TenorNotPositive)
    else if known.OtherStatus? then Err(StatusInvalid)
    else if remaining < 0 || remaining > tenorMonths then Err(RemainingOutOfRange)
    else if known == Active && remaining == 0 then Err(ActiveWithoutRemaining)
    else if known == PaidOff && remaining != 0 then Err(PaidOffWithRemaining)
    else Ok(PaymentState(remaining, known))
  }

  // ---------------------------------------------------------------- plans on the ledger

  datatype Plan = Plan(
    userID: Id,
    name: string,
    walletID: Id,
    categoryID: Id,
    totalMinor: int64,
    monthlyMinor: int64,
    tenorMonths: int64,
    remainingMonths: int,
    status: PlanStatus)
  {
    function State(): PaymentState { PaymentState(remainingMonths, status) }
  }

  /** A payment of a plan, kept under the transaction it posted. */
  datatype PaymentRecord = PaymentRecord(userID: Id, planID: Id, amountMinor: int, paidAt: Instant, note: string)

  /** A stored plan: exact amounts, no more months left than the tenor, months left while it is active
      and none once it is paid off. */
  predicate PlanOk(plan: Plan) {
    && plan.monthlyMinor > 0 && plan.tenorMonths > 0 && plan.monthlyMinor * plan.tenorMonths == plan.totalMinor
    && 0 <= plan.remainingMonths <= plan.tenorMonths
    && !plan.status.OtherStatus?
    && (plan.status == Active ==> plan.remainingMonths > 0)
    && (plan.status == PaidOff ==> plan.remainingMonths == 0)
  }

  /** The checks before a plan is written; creating also defaults an empty status, updating does not,
      and the table refuses it. */
  predicate Writable(db: Database, userID: Id, plan: Plan) {
    && ValidatePlan(plan.totalMinor, plan.monthlyMinor, plan.tenorMonths).None?
    && CanRecord(db, userID, plan.walletID) && OwnsCategory(db, userID, plan.categoryID, Expense)
    && ResolveRemainingAndStatus(plan.tenorMonths, Some(plan.remainingMonths), plan.status).Ok?
    && plan.status != UNSET_STATUS
  }

  lemma {:induction false} WritableIsOk(db: Database, userID: Id, plan: Plan)
    requires Writable(db, userID, plan)
    ensures PlanOk(plan)
  {
    PlanIsExact(plan.totalMinor, plan.monthlyMinor, plan.tenorMonths);
  }

  function PaymentPosting(plan: Plan, paidAt: Instant, note: string): TransactionInput {
    TransactionInput(Expense, plan.walletID, NO_ID, plan.categoryID, plan.monthlyMinor, 0, [], paidAt,
                     if note == "" then "Installment payment: " + plan.name else note)
  }

  predicate PaySucceeds(db: Database, plans: map<Id, Plan>, userID: Id, id: Id, txID: Id, paidAt: Instant,
      note: string) {
    && id in plans && plans[id].userID == userID
    && ApplyPayment(plans[id].State()).Ok?
    && CreateSucceeds(db, userID, txID, PaymentPosting(plans[id], paidAt, note))
  }

  function PaidPlan(plan: Plan): Plan
    requires ApplyPayment(plan.State()).Ok?
  {
    var next := ApplyPayment(plan.State()).value;
    plan.(remainingMonths := next.remainingMonths, status := next.status)
  }

  function AfterPayments(state: PaymentState, k: nat): Option<PaymentState> {
    if k == 0 then Some(state)
    else match AfterPayments(state, k - 1)
      case None => None
      case Some(before) => match ApplyPayment(before) case Err(_) => None case Ok(next) => Some(next)
  }

  /** An active plan takes exactly as many payments as it has months left, and the last one pays it off. */
  lemma {:induction false} PaymentsUntilPaidOff(state: PaymentState, k: nat)
    requires state.status == Active && state.remainingMonths > 0
    ensures AfterPayments(state, k).Some? <==> k <= state.remainingMonths
    ensures k <= state.remainingMonths ==>
      AfterPayments(state, k).value
      == PaymentState(state.remainingMonths - k, if k == state.remainingMonths then PaidOff else Active)
  {
    if k > 0 {
      PaymentsUntilPaidOff(state, k - 1);
    }
  }
}

/** Debts: the payment state machine, the ledger transactions it posts, and the tables after each
    committed call. */
module Debts {
  import opened Common
  import opened Sums
  import opened Ledger

  datatype DebtType = Receivable | Payable | OtherType(text: string)

  datatype DebtStatus = Open | Partial | PaidOff | Cancelled | OtherStatus(text: string)

  const UNSET_STATUS: DebtStatus := OtherStatus("")

  datatype DebtAction = Origination | Payment

  datatype PaymentError =
    | PrincipalNotPositive | PaidOutOfRange | StatusInvalid | StatusMismatch
    | InactiveDebt | PaymentNotPositive | Overpayment

  datatype PaymentState = PaymentState(principalMinor: int, paidMinor: int, status: DebtStatus)

  function StatusForAmounts(principalMinor: int, paidMinor: int): DebtStatus {
    if paidMinor == 0 then Open else if paidMinor == principalMinor then PaidOff else Partial
  }

  predicate ValidAmounts(principalMinor: int, paidMinor: int) {
    principalMinor > 0 && 0 <= paidMinor <= principalMinor
  }

  /** The status is cancelled or the one the amounts call for. */
  predicate Consistent(principalMinor: int, paidMinor: int, status: DebtStatus) {
    status == Cancelled || status == StatusForAmounts(principalMinor, paidMinor)
  }

  function ResolveStatus(principalMinor: int, paidMinor: int,
      requested: DebtStatus): (r: Result<PaymentState, PaymentError>)
    ensures r.Ok? <==>
      && ValidAmounts(principalMinor, paidMinor)
      && (requested == UNSET_STATUS || Consistent(principalMinor, paidMinor, requested))
    ensures r.Ok? ==> Consistent(principalMinor, paidMinor, r.value.status)
    ensures r.Ok? && requested != UNSET_STATUS ==> r.value.status == requested
  {
    if principalMinor <= 0 then Err(PrincipalNotPositive)
    else if paidMinor < 0 || paidMinor > principalMinor then Err(PaidOutOfRange)
    else
      var status := if requested == UNSET_STATUS then StatusForAmounts(principalMinor, paidMinor) else requested;
      if status.OtherStatus? then Err(StatusInvalid)
      else if status != Cancelled && status != StatusForAmounts(principalMinor, paidMinor) then Err(StatusMismatch)
      else Ok(PaymentState(principalMinor, paidMinor, status))
  }

  function ApplyPayment(state: PaymentState, amountMinor: int): Result<PaymentState, PaymentError> {
    match ResolveStatus(state.principalMinor, state.paidMinor, state.status)
    case Err(error) => Err(error)
    case Ok(resolved) =>
      if resolved.status == Cancelled || resolved.status == PaidOff then Err(InactiveDebt)
      else if amountMinor <= 0 then Err(PaymentNotPositive)
      else if amountMinor > resolved.principalMinor - resolved.paidMinor then Err(Overpayment)
      else ResolveStatus(resolved.principalMinor, resolved.paidMinor + amountMinor, UNSET_STATUS)
  }

  /** A payment is taken exactly when the debt is running and its status agrees with its amounts, and
      the payment is positive and no more than what remains; it then settles the debt if it is all
      that remains. */
  lemma PaymentTaken(state: PaymentState, amountMinor: int)
    requires ValidAmounts(state.principalMinor, state.paidMinor) && state.status != UNSET_STATUS
    ensures ApplyPayment(state, amountMinor).Ok? <==>
      && state.status == StatusForAmounts(state.principalMinor, state.paidMinor)
      && 0 < amountMinor <= state.principalMinor - state.paidMinor
    ensures ApplyPayment(state, amountMinor).Ok? ==>
      ApplyPayment(state, amountMinor).value
      == PaymentState(state.principalMinor, state.paidMinor + amountMinor,
                      if amountMinor == state.principalMinor - state.paidMinor then PaidOff else Partial)
  {
  }

  /** A payment is refused for a status mismatch exactly when the stored status is a known one that
      does not agree with the amounts. */
  lemma MismatchIff(state: PaymentState, amountMinor: int)
    requires ValidAmounts(state.principalMinor, state.paidMinor) && !state.status.OtherStatus?
    ensures ApplyPayment(state, amountMinor) == Err(StatusMismatch)
       <==> !Consistent(state.principalMinor, state.paidMinor, state.status)
  {
  }

  function TransactionTypeFor(kind: DebtType, action: DebtAction): (t: Result<TransactionType, DebtError>)
    ensures t.Ok? <==> !kind.OtherType?
    ensures t.Ok? ==> t.value == Income || t.value == Expense
  {
    match (kind, action)
    case (OtherType(_), _) => Err(UnknownType)
    case (Receivable, Origination) => Ok(Expense)
    case (Payable, Origination) => Ok(Income)
    case (Receivable, Payment) => Ok(Income)
    case (Payable, Payment) => Ok(Expense)
  }

  // ---------------------------------------------------------------- tables

  datatype Debt = Debt(
    userID: Id,
    kind: DebtType,
    counterpartyName: string,
    walletID: Id,
    disbursementCategoryID: Id,
    paymentCategoryID: Id,
    originationID: Id,
    principalMinor: int,
    paidMinor: int,
    openedAt: Instant,
    status: DebtStatus,
    note: string)
  {
    function State(): PaymentState { PaymentState(principalMinor, paidMinor, status) }
  }

  datatype DebtInput = DebtInput(
    kind: DebtType,
    counterpartyName: string,
    walletID: Id,
    disbursementCategoryID: Id,
    paymentCategoryID: Id,
    originationID: Option<Id>,
    principalMinor: int,
    openedAt: Instant,
    note: string)

  /** A payment, kept under the transaction it posted. */
  datatype DebtPayment = DebtPayment(userID: Id, debtID: Id, amountMinor: int, paidAt: Instant, note: string)

  datatype State = State(db: Database, debts: map<Id, Debt>, payments: map<Id, DebtPayment>)

  datatype DebtError =
    | UnknownType | InvalidPrincipal | NotFound | ConstraintViolated
    | Refused(reason: PaymentError)
    | NotPosted

  function NoteOr(note: string, fallback: string): string {
    if note != "" then note else fallback
  }

  function OriginationPosting(input: DebtInput, openedAt: Instant): TransactionInput
    requires !input.kind.OtherType?
  {
    TransactionInput(TransactionTypeFor(input.kind, Origination).value, input.walletID, NO_ID,
                     input.disbursementCategoryID, input.principalMinor, 0, [], openedAt,
                     NoteOr(input.note, (if input.kind == Receivable then "Loan given to " else "Loan received from ")
                                        + input.counterpartyName))
  }

  function PaymentPosting(debt: Debt, amountMinor: int, paidAt: Instant, note: string): TransactionInput
    requires !debt.kind.OtherType?
  {
    TransactionInput(TransactionTypeFor(debt.kind, Payment).value, debt.walletID, NO_ID,
                     debt.paymentCategoryID, amountMinor, 0, [], paidAt,
                     NoteOr(note, (if debt.kind == Receivable then "Loan repayment from " else "Loan repayment to ")
                                  + debt.counterpartyName))
  }

  /** A zero instant stands for the present one. */
  function OrNow(t: Instant, now: Instant): Instant {
    if t == ZERO_TIME then now else t
  }

  /** The foreign keys of a new debt row. */
  predicate RowInserts(st: State, userID: Id, debtID: Id, input: DebtInput, originationID: Id) {
    && debtID !in st.debts
    && input.walletID in st.db.wallets
    && input.disbursementCategoryID in st.db.categories
    && st.db.categories[input.disbursementCategoryID].userID == userID
    && originationID in st.db.transactions && st.db.transactions[originationID].userID == userID
  }

  /** The debt references its origination, which can then no longer be deleted. */
  function Recorded(st: State, userID: Id, debtID: Id, input: DebtInput, originationID: Id, now: Instant): State {
    st.(db := st.db.(retained := st.db.retained + {originationID}),
        debts := st.debts[debtID := Debt(userID, input.kind, input.counterpartyName, input.walletID,
          input.disbursementCategoryID, input.paymentCategoryID, originationID, input.principalMinor, 0,
          OrNow(input.openedAt, now), Open, input.note)])
  }

  predicate DebtAcceptable(st: State, userID: Id, input: DebtInput) {
    && !input.kind.OtherType? && input.principalMinor > 0
    && OwnsCategory(st.db, userID, input.paymentCategoryID, TransactionTypeFor(input.kind, Payment).value)
  }

  /** The tables once the debt's own origination is posted, if it brings none. */
  function Originated(st: State, userID: Id, txID: Id, input: DebtInput, now: Instant): State
    requires !input.kind.OtherType?
  {
    if input.originationID.Some? then st
    else st.(db := AfterCreate(st.db, userID, txID, OriginationPosting(input, OrNow(input.openedAt, now))))
  }

  predicate CreateDebtSucceeds(st: State, userID: Id, debtID: Id, txID: Id, input: DebtInput, now: Instant) {
    && DebtAcceptable(st, userID, input)
    && (input.originationID.None? ==>
          CreateSucceeds(st.db, userID, txID, OriginationPosting(input, OrNow(input.openedAt, now))))
    && RowInserts(Originated(st, userID, txID, input, now), userID, debtID, input,
                  if input.originationID.Some? then input.originationID.value else txID)
  }

  function AfterCreateDebt(st: State, userID: Id, debtID: Id, txID: Id, input: DebtInput, now: Instant): State
    requires CreateDebtSucceeds(st, userID, debtID, txID, input, now)
  {
    Recorded(Originated(st, userID, txID, input, now), userID, debtID, input,
             if input.originationID.Some? then input.originationID.value else txID, now)
  }

  predicate PaySucceeds(st: State, userID: Id, id: Id, txID: Id, amountMinor: int, paidAt: Instant, note: string) {
    && id in st.debts && st.debts[id].userID == userID && !st.debts[id].kind.OtherType?
    && ApplyPayment(st.debts[id].State(), amountMinor).Ok?
    && CreateSucceeds(st.db, userID, txID, PaymentPosting(st.debts[id], amountMinor, paidAt, note))
    && txID !in st.payments
  }

  /** Posts the payment's transaction, records the payment and moves the debt on. */
  function Paid(st: State, userID: Id, id: Id, txID: Id, amountMinor: int, paidAt: Instant, note: string,
      next: PaymentState): State
    requires id in st.debts && !st.debts[id].kind.OtherType?
  {
    var posted := AfterCreate(st.db, userID, txID, PaymentPosting(st.debts[id], amountMinor, paidAt, note));
    State(posted.(retained := posted.retained + {txID}),
          st.debts[id := st.debts[id].(paidMinor := next.paidMinor, status := next.status)],
          st.payments[txID := DebtPayment(userID, id, amountMinor, paidAt, note)])
  }

  function AfterPay(st: State, userID: Id, id: Id, txID: Id, amountMinor: int, paidAt: Instant, note: string): State
    requires PaySucceeds(st, userID, id, txID, amountMinor, paidAt, note)
  {
    Paid(st, userID, id, txID, amountMinor, paidAt, note, ApplyPayment(st.debts[id].State(), amountMinor).value)
  }

  /** The status an update will write, decided on the row as it was read. */
  function UpdateStatus(debt: Debt, requested: DebtStatus): Result<DebtStatus, DebtError> {
    var status := if requested == UNSET_STATUS then debt.status else requested;
    if status.OtherStatus? then Err(Refused(StatusInvalid))
    else if status == Cancelled then Ok(status)
    else match ResolveStatus(debt.principalMinor, debt.paidMinor, status)
      case Err(reason) => Err(Refused(reason))
      case Ok(_) => Ok(status)
  }

  function Relabelled(st: State, id: Id, counterpartyName: string, status: DebtStatus, note: string): State
    requires id in st.debts
  {
    st.(debts := st.debts[id := st.debts[id].(counterpartyName := counterpartyName, status := status, note := note)])
  }

  predicate Owned(st: State, userID: Id, id: Id) {
    id in st.debts && st.debts[id].userID == userID
  }

  /** Deleting a debt cancels it; its history stays. */
  function AfterCancel(st: State, userID: Id, id: Id): State {
    if Owned(st, userID, id) then st.(debts := st.debts[id := st.debts[id].(status := Cancelled)]) else st
  }

  // ---------------------------------------------------------------- what every call keeps

  function AmountOf(payment: DebtPayment, debtID: Id): int {
    if payment.debtID == debtID then payment.amountMinor else 0
  }

  function PaymentsOf(payments: map<Id, DebtPayment>, debtID: Id): (m: map<Id, int>)
    ensures m.Keys == payments.Keys
  {
    map tx | tx in payments :: AmountOf(payments[tx], debtID)
  }

  predicate RowOk(debt: Debt, retained: set<Id>) {
    && !debt.kind.OtherType? && !debt.status.OtherStatus?
    && ValidAmounts(debt.principalMinor, debt.paidMinor)
    && debt.originationID in retained
  }

  predicate RowsOk(debts: map<Id, Debt>, retained: set<Id>) {
    forall id :: id in debts ==> RowOk(debts[id], retained)
  }

  predicate PaymentOk(payment: DebtPayment, tx: Id, debtIDs: set<Id>, retained: set<Id>) {
    payment.debtID in debtIDs && payment.amountMinor > 0 && tx in retained
  }

  predicate PaymentsOk(payments: map<Id, DebtPayment>, debtIDs: set<Id>, retained: set<Id>) {
    forall tx :: tx in payments ==> PaymentOk(payments[tx], tx, debtIDs, retained)
  }

  ghost predicate Tallied(paidMinor: int, payments: map<Id, DebtPayment>, id: Id) {
    paidMinor == Sum(PaymentsOf(payments, id))
  }

  /** Every paid amount is the sum of the debt's recorded payments. */
  ghost predicate TalliesOk(debts: map<Id, Debt>, payments: map<Id, DebtPayment>) {
    forall id :: id in debts ==> Tallied(debts[id].paidMinor, payments, id)
  }

  /** In every reachable state a debt's paid amount is the sum of its recorded payments, between zero
      and its principal, and all the transactions it refers to are retained. */
  ghost predicate DebtsOk(st: State) {
    && RowsOk(st.debts, st.db.retained)
    && PaymentsOk(st.payments, st.debts.Keys, st.db.retained)
    && TalliesOk(st.debts, st.payments)
  }

  lemma PaymentsGrow(payments: map<Id, DebtPayment>, tx: Id, payment: DebtPayment, id: Id)
    requires tx !in payments
    ensures Sum(PaymentsOf(payments[tx := payment], id)) == Sum(PaymentsOf(payments, id)) + AmountOf(payment, id)
  {
    SumInsert(PaymentsOf(payments, id), tx, AmountOf(payment, id));
    assert PaymentsOf(payments[tx := payment], id) == PaymentsOf(payments, id)[tx := AmountOf(payment, id)];
  }

  lemma FreshHasNoPayments(payments: map<Id, DebtPayment>, debtIDs: set<Id>, retained: set<Id>, id: Id)
    requires PaymentsOk(payments, debtIDs, retained) && id !in debtIDs
    ensures Tallied(0, payments, id)
  {
    forall tx | tx in payments ensures PaymentsOf(payments, id)[tx] == 0 {
      assert PaymentOk(payments[tx], tx, debtIDs, retained);
    }
    SumZero(PaymentsOf(payments, id));
  }

  lemma TalliesAddDebt(debts: map<Id, Debt>, payments: map<Id, DebtPayment>, id: Id, debt: Debt)
    requires TalliesOk(debts, payments) && Tallied(debt.paidMinor, payments, id)
    ensures TalliesOk(debts[id := debt], payments)
  {
  }

  lemma TalliesAddPayment(debts: map<Id, Debt>, payments: map<Id, DebtPayment>, id: Id, debt: Debt, tx: Id,
      payment: DebtPayment)
    requires TalliesOk(debts, payments) && id in debts && tx !in payments && payment.debtID == id
    requires debt.paidMinor == debts[id].paidMinor + payment.amountMinor
    ensures TalliesOk(debts[id := debt], payments[tx := payment])
  {
    forall other | other in debts
      ensures Tallied(debts[id := debt][other].paidMinor, payments[tx := payment], other)
    {
      assert Tallied(debts[other].paidMinor, payments, other);
      PaymentsGrow(payments, tx, payment, other);
    }
  }

  lemma TalliesIgnoreStatus(debts: map<Id, Debt>, payments: map<Id, DebtPayment>, id: Id, debt: Debt)
    requires TalliesOk(debts, payments) && id in debts && debt.paidMinor == debts[id].paidMinor
    ensures TalliesOk(debts[id := debt], payments)
  {
  }

  lemma {:induction false} RecordKeepsDebts(st: State, userID: Id, debtID: Id, input: DebtInput,
      originationID: Id, now: Instant)
    requires DebtsOk(st) && debtID !in st.debts && !input.kind.OtherType? && input.principalMinor > 0
    ensures DebtsOk(Recorded(st, userID, debtID, input, originationID, now))
  {
    var debt := Recorded(st, userID, debtID, input, originationID, now).debts[debtID];
    FreshHasNoPayments(st.payments, st.debts.Keys, st.db.retained, debtID);
    TalliesAddDebt(st.debts, st.payments, debtID, debt);
    RowsStay(st.debts, debtID, debt, st.db.retained, st.db.retained + {originationID});
  }

  /** An accepted payment keeps the row in order. */
  lemma PaidRow(debt: Debt, amountMinor: int, next: PaymentState, retained: set<Id>, txID: Id)
    requires RowOk(debt, retained) && ApplyPayment(debt.State(), amountMinor) == Ok(next)
    ensures amountMinor > 0 && next.paidMinor == debt.paidMinor + amountMinor
    ensures RowOk(debt.(paidMinor := next.paidMinor, status := next.status), retained + {txID})
  {
  }

  lemma PaidTables(st: State, userID: Id, id: Id, txID: Id, amountMinor: int, paidAt: Instant, note: string,
      next: PaymentState)
    requires id in st.debts && !st.debts[id].kind.OtherType?
    ensures
      var after := Paid(st, userID, id, txID, amountMinor, paidAt, note, next);
      && after.debts == st.debts[id := st.debts[id].(paidMinor := next.paidMinor, status := next.status)]
      && after.payments == st.payments[txID := DebtPayment(userID, id, amountMinor, paidAt, note)]
      && after.db.retained == st.db.retained + {txID}
  {
  }

  lemma {:induction false} PayKeepsDebts(st: State, userID: Id, id: Id, txID: Id, amountMinor: int,
      paidAt: Instant, note: string, next: PaymentState)
    requires DebtsOk(st) && id in st.debts && !st.debts[id].kind.OtherType? && txID !in st.payments
    requires ApplyPayment(st.debts[id].State(), amountMinor) == Ok(next)
    ensures DebtsOk(Paid(st, userID, id, txID, amountMinor, paidAt, note, next))
  {
    var debt := st.debts[id].(paidMinor := next.paidMinor, status := next.status);
    PaidRow(st.debts[id], amountMinor, next, st.db.retained, txID);
    PaidTables(st, userID, id, txID, amountMinor, paidAt, note, next);
    TalliesAddPayment(st.debts, st.payments, id, debt, txID, DebtPayment(userID, id, amountMinor, paidAt, note));
    RowsStay(st.debts, id, debt, st.db.retained, st.db.retained + {txID});
  }

  lemma RowsStay(debts: map<Id, Debt>, id: Id, debt: Debt, retained: set<Id>, retained': set<Id>)
    requires RowsOk(debts, retained) && retained <= retained' && RowOk(debt, retained')
    ensures RowsOk(debts[id := debt], retained')
  {
  }

  /** Debts survive every change of the ledger that keeps the retained transactions. */
  lemma LedgerChangeKeepsDebts(st: State, db: Database)
    requires DebtsOk(st) && st.db.retained <= db.retained
    ensures DebtsOk(st.(db := db))
  {
  }

  lemma {:induction false} StatusChangeKeepsDebts(st: State, id: Id, debt: Debt)
    requires DebtsOk(st) && id in st.debts && !debt.status.OtherStatus?
    requires debt == st.debts[id].(counterpartyName := debt.counterpartyName, status := debt.status, note := debt.note)
    ensures DebtsOk(st.(debts := st.debts[id := debt]))
  {
    TalliesIgnoreStatus(st.debts, st.payments, id, debt);
    RowsStay(st.debts, id, debt, st.db.retained, st.db.retained);
  }
}

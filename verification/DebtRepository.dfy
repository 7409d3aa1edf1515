/** The debt calls, statement by statement, over the same tables as the ledger. */
module DebtRepository {
  import opened Common
  import opened Ledger
  import opened Debts
  import TransactionRepository

  class DebtRepository {
    const transactions: TransactionRepository.TransactionRepository
    var debts: map<Id, Debt>
    var payments: map<Id, DebtPayment>

    constructor (ledger: TransactionRepository.TransactionRepository, storedDebts: map<Id, Debt>,
        storedPayments: map<Id, DebtPayment>)
      ensures transactions == ledger && debts == storedDebts && payments == storedPayments
    {
      transactions, debts, payments := ledger, storedDebts, storedPayments;
    }

    function Tables(): State
      reads this, transactions
    {
      State(transactions.db, debts, payments)
    }

    method Rollback(begun: State)
      modifies this, transactions
      ensures Tables() == begun
    {
      transactions.db := begun.db;
      debts, payments := begun.debts, begun.payments;
    }

    /** Writes within the caller's database transaction; on an error the caller rolls back. A debt that
        brings an origination shares it; otherwise it posts its own. */
    method CreateInTx(userID: Id, debtID: Id, txID: Id, input: DebtInput,
        now: Instant) returns (r: Result<Id, DebtError>)
      modifies this, transactions
      ensures r.Ok? <==> CreateDebtSucceeds(old(Tables()), userID, debtID, txID, input, now)
      ensures r.Ok? ==>
        r.value == debtID && Tables() == AfterCreateDebt(old(Tables()), userID, debtID, txID, input, now)
    {
      if input.kind.OtherType? {
        return Err(UnknownType);
      }
      if input.principalMinor <= 0 {
        return Err(InvalidPrincipal);
      }
      var openedAt := OrNow(input.openedAt, now);
      var paymentType := TransactionTypeFor(input.kind, Payment).value;
      if !OwnsCategory(transactions.db, userID, input.paymentCategoryID, paymentType) {
        return Err(NotFound);
      }
      var originationID := txID;
      if input.originationID.Some? {
        originationID := input.originationID.value;
      } else {
        var origination := transactions.CreateInTx(userID, txID, OriginationPosting(input, openedAt));
        if origination.Err? {
          return Err(NotPosted);
        }
      }
      assert Tables() == Originated(old(Tables()), userID, txID, input, now);
      if !RowInserts(Tables(), userID, debtID, input, originationID) {
        return Err(ConstraintViolated);
      }
      transactions.db := transactions.db.(retained := transactions.db.retained + {originationID});
      debts := debts[debtID := Debt(userID, input.kind, input.counterpartyName, input.walletID,
        input.disbursementCategoryID, input.paymentCategoryID, originationID, input.principalMinor, 0, openedAt,
        Open, input.note)];
      return Ok(debtID);
    }

    method Create(userID: Id, debtID: Id, txID: Id, input: DebtInput, now: Instant) returns (r: Result<Id, DebtError>)
      modifies this, transactions
      ensures r.Ok? <==> CreateDebtSucceeds(old(Tables()), userID, debtID, txID, input, now)
      ensures Tables()
           == if r.Ok? then AfterCreateDebt(old(Tables()), userID, debtID, txID, input, now) else old(Tables())
    {
      var begun := Tables();
      r := CreateInTx(userID, debtID, txID, input, now);
      if r.Err? {
        Rollback(begun);
      }
    }

    /** Under the debt's row lock: applies the payment, posts its transaction, records both. */
    method Pay(userID: Id, id: Id, txID: Id, amountMinor: int, paidAt: Instant, note: string, now: Instant)
      returns (r: Result<PaymentState, DebtError>)
      modifies this, transactions
      ensures r.Ok? <==> PaySucceeds(old(Tables()), userID, id, txID, amountMinor, OrNow(paidAt, now), note)
      ensures Tables() == if r.Ok? then AfterPay(old(Tables()), userID, id, txID, amountMinor, OrNow(paidAt, now), note)
                          else old(Tables())
      ensures r.Ok? ==> Ok(r.value) == ApplyPayment(old(debts)[id].State(), amountMinor)
      ensures Owned(old(Tables()), userID, id) && ApplyPayment(old(debts)[id].State(), amountMinor).Err? ==>
        r == Err(Refused(ApplyPayment(old(debts)[id].State(), amountMinor).error))
    {
      var at := OrNow(paidAt, now);
      var begun := Tables();
      if id !in debts || debts[id].userID != userID {
        return Err(NotFound);
      }
      var current := debts[id];
      var next := ApplyPayment(current.State(), amountMinor);
      if next.Err? {
        return Err(Refused(next.error));
      }
      if current.kind.OtherType? {
        return Err(UnknownType);
      }
      var created := transactions.CreateInTx(userID, txID, PaymentPosting(current, amountMinor, at, note));
      if created.Err? || txID in payments {
        Rollback(begun);
        return Err(NotPosted);
      }
      transactions.db := transactions.db.(retained := transactions.db.retained + {txID});
      payments := payments[txID := DebtPayment(userID, id, amountMinor, at, note)];
      debts := debts[id := current.(paidMinor := next.value.paidMinor, status := next.value.status)];
      return Ok(next.value);
    }

    /** Reads without a lock, decides, then writes; here nothing happens in between. */
    method Update(userID: Id, id: Id, counterpartyName: string, requested: DebtStatus, note: string)
      returns (r: Result<DebtStatus, DebtError>)
      modifies this`debts
      ensures r == if Owned(old(Tables()), userID, id) then UpdateStatus(old(debts)[id], requested) else Err(NotFound)
      ensures Tables()
           == if r.Ok? then Relabelled(old(Tables()), id, counterpartyName, r.value, note) else old(Tables())
    {
      if id !in debts || debts[id].userID != userID {
        return Err(NotFound);
      }
      r := UpdateStatus(debts[id], requested);
      if r.Ok? {
        debts := debts[id := debts[id].(counterpartyName := counterpartyName, status := r.value, note := note)];
      }
    }

    /** Cancels the debt. */
    method Delete(userID: Id, id: Id) returns (ok: bool)
      modifies this`debts
      ensures ok <==> Owned(old(Tables()), userID, id)
      ensures Tables() == AfterCancel(old(Tables()), userID, id)
    {
      ok := id in debts && debts[id].userID == userID;
      if ok {
        debts := debts[id := debts[id].(status := Cancelled)];
      }
    }
  }
}

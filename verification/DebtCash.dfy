/** Debts and cash: what a debt's transactions have done to its wallet is what is still outstanding. */
module DebtCash {
  import opened Common
  import opened Sums
  import opened Ledger
  import opened LedgerRuns
  import opened Debts
  import opened DebtRuns

  /** The transaction a payment posted, as long as nobody has edited it. */
  predicate PaymentRow(row: Transaction, debt: Debt, amountMinor: int) {
    && TransactionTypeFor(debt.kind, Payment) == Ok(row.kind) && row.walletID == debt.walletID
    && row.amountMinor == amountMinor
  }

  predicate OriginationRow(row: Transaction, debt: Debt) {
    && TransactionTypeFor(debt.kind, Origination) == Ok(row.kind) && row.walletID == debt.walletID
    && row.amountMinor == debt.principalMinor
  }

  predicate PaymentLinked(st: State, edited: set<Id>, tx: Id)
    requires tx in st.payments
  {
    && tx in st.db.transactions && st.payments[tx].debtID in st.debts
    && (tx !in edited ==>
          PaymentRow(st.db.transactions[tx], st.debts[st.payments[tx].debtID], st.payments[tx].amountMinor))
  }

  predicate OriginationLinked(st: State, edited: set<Id>, id: Id) {
    id in st.debts &&
    var origination := st.debts[id].originationID;
    && origination in st.db.transactions
    && (origination !in edited ==> OriginationRow(st.db.transactions[origination], st.debts[id]))
  }

  predicate PaymentsLinked(st: State, edited: set<Id>) {
    forall tx :: tx in st.payments ==> PaymentLinked(st, edited, tx)
  }

  predicate OriginationsLinked(st: State, own: set<Id>, edited: set<Id>) {
    forall id :: id in own ==> OriginationLinked(st, edited, id)
  }

  predicate RefsOk(st: State) {
    RowsOk(st.debts, st.db.retained) && PaymentsOk(st.payments, st.debts.Keys, st.db.retained) && WellFormed(st.db)
  }

  // ---------------------------------------------------------------- steps keep the links

  /** Debts are never removed and keep their terms. */
  predicate SameTerms(debts: map<Id, Debt>, debts': map<Id, Debt>) {
    forall id :: id in debts ==>
      id in debts' && debts'[id].kind == debts[id].kind && debts'[id].walletID == debts[id].walletID
      && debts'[id].originationID == debts[id].originationID && debts'[id].principalMinor == debts[id].principalMinor
  }

  /** Retained transactions are never removed, and only edited ones change. */
  predicate RetainedStay(db: Database, db': Database, edited: set<Id>) {
    forall tx :: tx in db.retained ==>
      tx in db'.transactions && tx in db.transactions && (tx !in edited ==> db'.transactions[tx] == db.transactions[tx])
  }

  predicate PaymentsKept(st: State, st': State, newTx: Id) {
    forall tx :: tx in st'.payments && tx != newTx ==> tx in st.payments && st'.payments[tx] == st.payments[tx]
  }

  /** A step that adds at most one payment, and that one linked, keeps the payments linked. */
  lemma PaymentsStayLinked(st: State, st': State, edited: set<Id>, edited': set<Id>, newTx: Id)
    requires PaymentsOk(st.payments, st.debts.Keys, st.db.retained) && PaymentsLinked(st, edited)
    requires SameTerms(st.debts, st'.debts) && RetainedStay(st.db, st'.db, edited') && edited <= edited'
    requires PaymentsKept(st, st', newTx)
    requires newTx in st'.payments ==> PaymentLinked(st', edited', newTx)
    ensures PaymentsLinked(st', edited')
  {
  }

  /** A step that adds at most one debt with its own origination, and that one linked, keeps them linked. */
  lemma OriginationsStayLinked(st: State, st': State, own: set<Id>, own': set<Id>, edited: set<Id>, edited': set<Id>,
      newDebt: Id)
    requires RowsOk(st.debts, st.db.retained) && OriginationsLinked(st, own, edited)
    requires SameTerms(st.debts, st'.debts) && RetainedStay(st.db, st'.db, edited') && edited <= edited'
    requires own' <= own + {newDebt}
    requires newDebt in own' ==> OriginationLinked(st', edited', newDebt)
    ensures OriginationsLinked(st', own', edited')
  {
  }

  /** Posting a fresh transaction leaves every stored one as it is. */
  lemma PostingKeepsRows(db: Database, userID: Id, txID: Id, input: TransactionInput)
    requires WellFormed(db) && CreateSucceeds(db, userID, txID, input)
    ensures
      var posted := AfterCreate(db, userID, txID, input);
      && posted.transactions == db.transactions[txID := RowFor(userID, input)] && txID !in db.transactions
      && posted.retained == db.retained
  {
  }

  lemma LedgerCallKeepsRows(db: Database, opening: map<Id, int>, op: Op)
    requires WellFormed(db) && !op.Retain?
    ensures
      var db' := Apply(Books(db, opening), op).db;
      forall tx :: tx in db.retained ==>
        tx in db'.transactions && ((op.Update? ==> tx != op.id) ==> db'.transactions[tx] == db.transactions[tx])
  {
  }

  /** Posting and then retaining keeps the books. */
  lemma RetainKeepsLedger(db: Database, opening: map<Id, int>, retained: set<Id>)
    requires LedgerInv(db, opening) && retained <= db.transactions.Keys
    ensures LedgerInv(db.(retained := retained), opening)
  {
  }

  lemma {:induction false} PostKeepsLedger(db: Database, opening: map<Id, int>, userID: Id, txID: Id,
      input: TransactionInput)
    requires LedgerInv(db, opening)
    ensures LedgerInv(AfterCreate(db, userID, txID, input), opening)
  {
    CreateKeepsWellFormed(db, userID, txID, input);
    CreateKeepsBalanced(db, opening, userID, txID, input);
  }

  /** A new debt changes nothing but its own row, and posts its origination unless it shares one. */
  lemma CreatedTables(st: State, userID: Id, debtID: Id, txID: Id, input: DebtInput, now: Instant)
    requires WellFormed(st.db) && CreateDebtSucceeds(st, userID, debtID, txID, input, now)
    ensures
      var after := AfterCreateDebt(st, userID, debtID, txID, input, now);
      && SameTerms(st.debts, after.debts) && RetainedStay(st.db, after.db, {}) && after.payments == st.payments
      && after.db.retained <= after.db.transactions.Keys
  {
    if input.originationID.None? {
      PostingKeepsRows(st.db, userID, txID, OriginationPosting(input, OrNow(input.openedAt, now)));
    }
  }

  lemma CreatedIsLinked(st: State, userID: Id, debtID: Id, txID: Id, input: DebtInput, now: Instant, edited: set<Id>)
    requires WellFormed(st.db) && CreateDebtSucceeds(st, userID, debtID, txID, input, now) && input.originationID.None?
    ensures OriginationLinked(AfterCreateDebt(st, userID, debtID, txID, input, now), edited, debtID)
  {
  }

  lemma {:induction false} CreateDebtKeepsLedger(st: State, opening: map<Id, int>, userID: Id, debtID: Id,
      txID: Id, input: DebtInput, now: Instant)
    requires LedgerInv(st.db, opening) && CreateDebtSucceeds(st, userID, debtID, txID, input, now)
    ensures LedgerInv(AfterCreateDebt(st, userID, debtID, txID, input, now).db, opening)
  {
    CreatedTables(st, userID, debtID, txID, input, now);
    if input.originationID.None? {
      PostKeepsLedger(st.db, opening, userID, txID, OriginationPosting(input, OrNow(input.openedAt, now)));
    }
    RetainKeepsLedger(Originated(st, userID, txID, input, now).db, opening,
                      AfterCreateDebt(st, userID, debtID, txID, input, now).db.retained);
  }

  lemma PaidIsLinked(st: State, userID: Id, id: Id, txID: Id, amountMinor: int, paidAt: Instant, note: string,
      edited: set<Id>)
    requires WellFormed(st.db) && PaySucceeds(st, userID, id, txID, amountMinor, paidAt, note)
    ensures PaymentLinked(AfterPay(st, userID, id, txID, amountMinor, paidAt, note), edited, txID)
  {
  }

  lemma PayKeepsRows(st: State, userID: Id, id: Id, txID: Id, amountMinor: int, paidAt: Instant, note: string)
    requires WellFormed(st.db) && PaySucceeds(st, userID, id, txID, amountMinor, paidAt, note)
    ensures
      var after := AfterPay(st, userID, id, txID, amountMinor, paidAt, note);
      && SameTerms(st.debts, after.debts) && RetainedStay(st.db, after.db, {}) && PaymentsKept(st, after, txID)
      && after.db.retained <= after.db.transactions.Keys
  {
    PostingKeepsRows(st.db, userID, txID, PaymentPosting(st.debts[id], amountMinor, paidAt, note));
  }

  lemma {:induction false} PayKeepsLedger(st: State, opening: map<Id, int>, userID: Id, id: Id, txID: Id,
      amountMinor: int, paidAt: Instant, note: string)
    requires LedgerInv(st.db, opening) && PaySucceeds(st, userID, id, txID, amountMinor, paidAt, note)
    ensures LedgerInv(AfterPay(st, userID, id, txID, amountMinor, paidAt, note).db, opening)
  {
    var posting := PaymentPosting(st.debts[id], amountMinor, paidAt, note);
    PayKeepsRows(st, userID, id, txID, amountMinor, paidAt, note);
    PostKeepsLedger(st.db, opening, userID, txID, posting);
    RetainKeepsLedger(AfterCreate(st.db, userID, txID, posting), opening, st.db.retained + {txID});
  }

  // ---------------------------------------------------------------- whole runs

  /** What a step leaves alone: the terms of debts, retained transactions but for edited ones, and
      payments but for one it may add. */
  predicate Stays(sys: System, sys': System, newTx: Id) {
    && SameTerms(sys.st.debts, sys'.st.debts) && RetainedStay(sys.st.db, sys'.st.db, sys'.edited)
    && sys.edited <= sys'.edited && PaymentsKept(sys.st, sys'.st, newTx)
  }

  function NewTx(step: Step): Id {
    if step.PayDebt? then step.txID else NO_ID
  }

  lemma {:induction false} CreateStays(sys: System, step: Step)
    requires WellFormed(sys.st.db) && step.CreateDebt?
    ensures Stays(sys, Exec(sys, step), NO_ID)
  {
    if CreateDebtSucceeds(sys.st, step.userID, step.debtID, step.txID, step.input, step.now) {
      CreatedTables(sys.st, step.userID, step.debtID, step.txID, step.input, step.now);
    }
  }

  lemma PayStays(sys: System, step: Step)
    requires WellFormed(sys.st.db) && step.PayDebt?
    ensures Stays(sys, Exec(sys, step), step.txID)
  {
    if PaySucceeds(sys.st, step.userID, step.id, step.txID, step.amountMinor, step.paidAt, step.note) {
      PayKeepsRows(sys.st, step.userID, step.id, step.txID, step.amountMinor, step.paidAt, step.note);
    }
  }

  lemma WriteStays(sys: System, p: DraftUpdate)
    requires WellFormed(sys.st.db)
    ensures Stays(sys, AfterWrite(sys, p), NO_ID)
  {
  }

  lemma LedgerCallStays(sys: System, op: Op)
    requires WellFormed(sys.st.db)
    ensures Stays(sys, AfterLedgerCall(sys, op), NO_ID)
  {
    if !op.Retain? {
      LedgerCallKeepsRows(sys.st.db, sys.opening, op);
    }
  }

  lemma UpdateStays(sys: System, step: Step)
    requires WellFormed(sys.st.db) && (step.ReadForUpdate? || step.WriteUpdate? || step.UpdateAtOnce?)
    ensures Stays(sys, Exec(sys, step), NO_ID)
  {
    if step.WriteUpdate? && step.sid in sys.pending {
      WriteStays(sys.(pending := sys.pending - {step.sid}), sys.pending[step.sid]);
    } else if step.UpdateAtOnce? && MayUpdate(sys.st, step.userID, step.id, step.requested) {
      WriteStays(sys, Drafted(sys.st, step.userID, step.id, step.counterpartyName, step.requested, step.note));
    }
  }

  lemma {:induction false} StepStays(sys: System, step: Step)
    requires WellFormed(sys.st.db)
    ensures Stays(sys, Exec(sys, step), NewTx(step))
  {
    match step
    case CreateDebt(_, _, _, _, _) => CreateStays(sys, step);
    case PayDebt(_, _, _, _, _, _) => PayStays(sys, step);
    case ReadForUpdate(_, _, _, _, _, _) => UpdateStays(sys, step);
    case WriteUpdate(_) => UpdateStays(sys, step);
    case UpdateAtOnce(_, _, _, _, _) => UpdateStays(sys, step);
    case CancelDebt(_, _) =>
    case LedgerCall(op) => LedgerCallStays(sys, op);
  }

  lemma {:induction false} StepKeepsPaymentsLinked(sys: System, step: Step)
    requires RefsOk(sys.st) && PaymentsLinked(sys.st, sys.edited)
    ensures PaymentsLinked(Exec(sys, step).st, Exec(sys, step).edited)
  {
    var sys' := Exec(sys, step);
    StepStays(sys, step);
    if step.PayDebt? && PaySucceeds(sys.st, step.userID, step.id, step.txID, step.amountMinor, step.paidAt, step.note) {
      PaidIsLinked(sys.st, step.userID, step.id, step.txID, step.amountMinor, step.paidAt, step.note, sys.edited);
      PaymentsStayLinked(sys.st, sys'.st, sys.edited, sys'.edited, step.txID);
    } else {
      OnlyPayAddsPayments(sys, step);
      AllPaymentsStayLinked(sys.st, sys'.st, sys.edited, sys'.edited);
    }
  }

  lemma OnlyPayAddsPayments(sys: System, step: Step)
    requires step.PayDebt? ==>
      !PaySucceeds(sys.st, step.userID, step.id, step.txID, step.amountMinor, step.paidAt, step.note)
    ensures Exec(sys, step).st.payments == sys.st.payments
  {
  }

  lemma AllPaymentsStayLinked(st: State, st': State, edited: set<Id>, edited': set<Id>)
    requires PaymentsOk(st.payments, st.debts.Keys, st.db.retained) && PaymentsLinked(st, edited)
    requires SameTerms(st.debts, st'.debts) && RetainedStay(st.db, st'.db, edited') && edited <= edited'
    requires st'.payments == st.payments
    ensures PaymentsLinked(st', edited')
  {
  }

  predicate OwnsOrigination(sys: System, step: Step) {
    && step.CreateDebt? && step.input.originationID.None?
    && CreateDebtSucceeds(sys.st, step.userID, step.debtID, step.txID, step.input, step.now)
  }

  lemma OnlyCreateOwns(sys: System, step: Step)
    requires !OwnsOrigination(sys, step)
    ensures Exec(sys, step).own == sys.own
  {
  }

  lemma {:induction false} StepKeepsOriginationsLinked(sys: System, step: Step)
    requires RefsOk(sys.st) && OriginationsLinked(sys.st, sys.own, sys.edited)
    ensures OriginationsLinked(Exec(sys, step).st, Exec(sys, step).own, Exec(sys, step).edited)
  {
    var sys' := Exec(sys, step);
    StepStays(sys, step);
    if OwnsOrigination(sys, step) {
      CreatedIsLinked(sys.st, step.userID, step.debtID, step.txID, step.input, step.now, sys.edited);
      OriginationsStayLinked(sys.st, sys'.st, sys.own, sys'.own, sys.edited, sys'.edited, step.debtID);
    } else {
      OnlyCreateOwns(sys, step);
      AllOriginationsStayLinked(sys.st, sys'.st, sys.own, sys.edited, sys'.edited);
    }
  }

  lemma AllOriginationsStayLinked(st: State, st': State, own: set<Id>, edited: set<Id>, edited': set<Id>)
    requires RowsOk(st.debts, st.db.retained) && OriginationsLinked(st, own, edited)
    requires SameTerms(st.debts, st'.debts) && RetainedStay(st.db, st'.db, edited') && edited <= edited'
    ensures OriginationsLinked(st', own, edited')
  {
  }

  lemma {:induction false} CreateStepKeepsLedger(sys: System, step: Step)
    requires LedgerInv(sys.st.db, sys.opening) && step.CreateDebt?
    ensures LedgerInv(Exec(sys, step).st.db, sys.opening)
  {
    if CreateDebtSucceeds(sys.st, step.userID, step.debtID, step.txID, step.input, step.now) {
      CreateDebtKeepsLedger(sys.st, sys.opening, step.userID, step.debtID, step.txID, step.input, step.now);
    }
  }

  lemma {:induction false} PayStepKeepsLedger(sys: System, step: Step)
    requires LedgerInv(sys.st.db, sys.opening) && step.PayDebt?
    ensures LedgerInv(Exec(sys, step).st.db, sys.opening)
  {
    if PaySucceeds(sys.st, step.userID, step.id, step.txID, step.amountMinor, step.paidAt, step.note) {
      PayStepIs(sys, step);
      PayKeepsLedger(sys.st, sys.opening, step.userID, step.id, step.txID, step.amountMinor, step.paidAt, step.note);
    }
  }

  lemma {:induction false} StepKeepsLedger(sys: System, step: Step)
    requires LedgerInv(sys.st.db, sys.opening)
    ensures LedgerInv(Exec(sys, step).st.db, Exec(sys, step).opening)
  {
    if step.CreateDebt? {
      CreateStepKeepsLedger(sys, step);
    } else if step.PayDebt? {
      PayStepKeepsLedger(sys, step);
    } else if step.LedgerCall? {
      ApplyKeepsLedger(Books(sys.st.db, sys.opening), step.op);
    }
  }

  /** The ledger stays in balance through every interleaving of debt calls and other ledger calls. */
  lemma {:induction false} RunKeepsLedger(sys: System, steps: seq<Step>)
    requires LedgerInv(sys.st.db, sys.opening)
    ensures LedgerInv(ExecAll(sys, steps).st.db, ExecAll(sys, steps).opening)
  {
    if steps != [] {
      RunKeepsLedger(sys, steps[..|steps| - 1]);
      StepKeepsLedger(ExecAll(sys, steps[..|steps| - 1]), steps[|steps| - 1]);
    }
  }

  lemma {:induction false} RunKeepsRefs(sys: System, steps: seq<Step>)
    requires AmountsOk(sys) && LedgerInv(sys.st.db, sys.opening)
    ensures RefsOk(ExecAll(sys, steps).st)
  {
    RunKeepsAmounts(sys, steps);
    RunKeepsLedger(sys, steps);
  }

  lemma {:induction false} RunKeepsPaymentsLinked(sys: System, steps: seq<Step>)
    requires AmountsOk(sys) && LedgerInv(sys.st.db, sys.opening) && PaymentsLinked(sys.st, sys.edited)
    ensures PaymentsLinked(ExecAll(sys, steps).st, ExecAll(sys, steps).edited)
  {
    if steps != [] {
      RunKeepsPaymentsLinked(sys, steps[..|steps| - 1]);
      RunKeepsRefs(sys, steps[..|steps| - 1]);
      StepKeepsPaymentsLinked(ExecAll(sys, steps[..|steps| - 1]), steps[|steps| - 1]);
    }
  }

  lemma {:induction false} RunKeepsOriginationsLinked(sys: System, steps: seq<Step>)
    requires AmountsOk(sys) && LedgerInv(sys.st.db, sys.opening) && OriginationsLinked(sys.st, sys.own, sys.edited)
    ensures OriginationsLinked(ExecAll(sys, steps).st, ExecAll(sys, steps).own, ExecAll(sys, steps).edited)
  {
    if steps != [] {
      RunKeepsOriginationsLinked(sys, steps[..|steps| - 1]);
      RunKeepsRefs(sys, steps[..|steps| - 1]);
      StepKeepsOriginationsLinked(ExecAll(sys, steps[..|steps| - 1]), steps[|steps| - 1]);
    }
  }

  // ---------------------------------------------------------------- the cash of one debt

  /** What one payment's transaction does to wallet w. */
  function PaymentEffect(st: State, tx: Id, id: Id, w: Id): int
    requires tx in st.payments
  {
    if st.payments[tx].debtID == id && tx in st.db.transactions then st.db.transactions[tx].Effect(w) else 0
  }

  function PaymentEffects(st: State, id: Id, w: Id): (m: map<Id, int>)
    ensures m.Keys == st.payments.Keys
  {
    map tx | tx in st.payments :: PaymentEffect(st, tx, id, w)
  }

  function OriginationEffect(st: State, id: Id, w: Id): int
    requires id in st.debts
  {
    if st.debts[id].originationID in st.db.transactions
    then st.db.transactions[st.debts[id].originationID].Effect(w) else 0
  }

  predicate PaymentsUnedited(st: State, edited: set<Id>, id: Id) {
    forall tx :: tx in st.payments && st.payments[tx].debtID == id ==> tx !in edited
  }

  function Negated(m: map<Id, int>): (r: map<Id, int>)
    ensures r.Keys == m.Keys
  {
    map k | k in m :: -m[k]
  }

  lemma SumNegated(m: map<Id, int>)
    ensures Sum(Negated(m)) == -Sum(m)
  {
    var zero := map k | k in m :: 0;
    SumZero(zero);
    SumPointwise(m, Negated(m), zero);
  }

  lemma PaymentEffectIs(st: State, edited: set<Id>, id: Id, w: Id, tx: Id)
    requires PaymentsLinked(st, edited) && PaymentsUnedited(st, edited, id)
    requires id in st.debts && tx in st.payments
    ensures
      var amount := AmountOf(st.payments[tx], id);
      PaymentEffect(st, tx, id, w)
      == if w != st.debts[id].walletID then 0 else if st.debts[id].kind == Receivable then amount else -amount
  {
  }

  lemma EffectsElsewhere(st: State, edited: set<Id>, id: Id, w: Id)
    requires PaymentsLinked(st, edited) && PaymentsUnedited(st, edited, id) && id in st.debts
    requires w != st.debts[id].walletID
    ensures Sum(PaymentEffects(st, id, w)) == 0
  {
    forall tx | tx in st.payments ensures PaymentEffects(st, id, w)[tx] == 0 {
      PaymentEffectIs(st, edited, id, w, tx);
    }
    SumZero(PaymentEffects(st, id, w));
  }

  lemma EffectsReceived(st: State, edited: set<Id>, id: Id)
    requires PaymentsLinked(st, edited) && PaymentsUnedited(st, edited, id) && id in st.debts
    requires st.debts[id].kind == Receivable
    ensures PaymentEffects(st, id, st.debts[id].walletID) == PaymentsOf(st.payments, id)
  {
    forall tx | tx in st.payments {
      PaymentEffectIs(st, edited, id, st.debts[id].walletID, tx);
    }
  }

  lemma EffectsPaid(st: State, edited: set<Id>, id: Id)
    requires PaymentsLinked(st, edited) && PaymentsUnedited(st, edited, id) && id in st.debts
    requires st.debts[id].kind != Receivable
    ensures PaymentEffects(st, id, st.debts[id].walletID) == Negated(PaymentsOf(st.payments, id))
  {
    forall tx | tx in st.payments {
      PaymentEffectIs(st, edited, id, st.debts[id].walletID, tx);
    }
  }

  /** The paid amount, as wallet w sees it: in for money lent, out for money borrowed. */
  function Received(debt: Debt, w: Id): int {
    if w != debt.walletID then 0 else if debt.kind == Receivable then debt.paidMinor else -debt.paidMinor
  }

  /** Together the payments of a debt have moved its wallet by the paid amount, in for money lent and
      out for money borrowed, and no other wallet. */
  lemma PaymentsMoveWallet(st: State, edited: set<Id>, id: Id, w: Id)
    requires PaymentsLinked(st, edited) && PaymentsUnedited(st, edited, id) && id in st.debts
    requires st.debts[id].paidMinor == Sum(PaymentsOf(st.payments, id))
    ensures Sum(PaymentEffects(st, id, w)) == Received(st.debts[id], w)
  {
    if w != st.debts[id].walletID {
      EffectsElsewhere(st, edited, id, w);
    } else if st.debts[id].kind == Receivable {
      EffectsReceived(st, edited, id);
    } else {
      EffectsPaid(st, edited, id);
      SumNegated(PaymentsOf(st.payments, id));
    }
  }

  /** All that a debt has done to wallet w. */
  ghost function DebtEffect(st: State, id: Id, w: Id): int
    requires id in st.debts
  {
    OriginationEffect(st, id, w) + Sum(PaymentEffects(st, id, w))
  }

  /** Nobody edited the transactions the debt posted. */
  predicate Unedited(sys: System, id: Id) {
    id in sys.st.debts && sys.st.debts[id].originationID !in sys.edited && PaymentsUnedited(sys.st, sys.edited, id)
  }

  lemma {:induction false} PaymentsInRun(db: Database, opening: map<Id, int>, steps: seq<Step>, id: Id, w: Id)
    requires LedgerInv(db, opening)
    requires
      var sys := ExecAll(Start(db, opening), steps);
      id in sys.st.debts && PaymentsUnedited(sys.st, sys.edited, id)
    ensures
      var st := ExecAll(Start(db, opening), steps).st;
      Sum(PaymentEffects(st, id, w)) == Received(st.debts[id], w)
  {
    var sys := ExecAll(Start(db, opening), steps);
    RunKeepsPaymentsLinked(Start(db, opening), steps);
    PaidIsSumOfPayments(db, opening, steps, id);
    PaymentsMoveWallet(sys.st, sys.edited, id, w);
  }

  lemma OriginationIs(st: State, edited: set<Id>, id: Id, w: Id)
    requires OriginationLinked(st, edited, id) && st.debts[id].originationID !in edited
    ensures OriginationEffect(st, id, w)
         == if w != st.debts[id].walletID then 0
            else if st.debts[id].kind == Receivable then -st.debts[id].principalMinor else st.debts[id].principalMinor
  {
  }

  /** As long as nobody edits its transactions, what a debt has done to its wallet is what is still
      outstanding: out for money lent, in for money borrowed, nothing once it is paid off; and it has
      done nothing to any other wallet. */
  lemma {:induction false} CashIsOutstanding(db: Database, opening: map<Id, int>, steps: seq<Step>, id: Id, w: Id)
    requires LedgerInv(db, opening)
    requires var sys := ExecAll(Start(db, opening), steps); id in sys.own && Unedited(sys, id)
    ensures
      var st := ExecAll(Start(db, opening), steps).st;
      var debt := st.debts[id];
      var outstanding := debt.principalMinor - debt.paidMinor;
      DebtEffect(st, id, w)
      == if w != debt.walletID then 0 else if debt.kind == Receivable then -outstanding else outstanding
  {
    var sys := ExecAll(Start(db, opening), steps);
    PaymentsInRun(db, opening, steps, id, w);
    RunKeepsOriginationsLinked(Start(db, opening), steps);
    OriginationIs(sys.st, sys.edited, id, w);
  }
}

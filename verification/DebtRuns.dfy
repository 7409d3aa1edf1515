/** Debts over whole runs. Creating, paying and cancelling are single steps, as they hold the debt's
    row lock or are one statement; an update is two, since it reads the row without locking it. What
    that does to statuses is in DebtStatuses.dfy. */
module DebtRuns {
  import opened Common
  import opened Sums
  import opened Ledger
  import opened LedgerRuns
  import opened Debts

  type Sid = nat

  /** An update that has read its debt and is about to write. */
  datatype DraftUpdate = DraftUpdate(id: Id, read: Debt, counterpartyName: string, status: DebtStatus, note: string)

  /** The tables; updates in flight; debts that posted their own origination; transactions whose
      contents a user changed after they were posted. */
  datatype System = System(
    st: State,
    opening: map<Id, int>,
    pending: map<Sid, DraftUpdate>,
    own: set<Id>,
    edited: set<Id>)

  datatype Step =
    | CreateDebt(userID: Id, debtID: Id, txID: Id, input: DebtInput, now: Instant)
    | PayDebt(userID: Id, id: Id, txID: Id, amountMinor: int, paidAt: Instant, note: string)
    | ReadForUpdate(sid: Sid, userID: Id, id: Id, counterpartyName: string, requested: DebtStatus, note: string)
    | WriteUpdate(sid: Sid)
    | UpdateAtOnce(userID: Id, id: Id, counterpartyName: string, requested: DebtStatus, note: string)
    | CancelDebt(userID: Id, id: Id)
    | LedgerCall(op: Op)

  /** An update may go on when the user owns the debt and the status fits the row as it is read. */
  predicate MayUpdate(st: State, userID: Id, id: Id, requested: DebtStatus) {
    Owned(st, userID, id) && UpdateStatus(st.debts[id], requested).Ok?
  }

  function Drafted(st: State, userID: Id, id: Id, counterpartyName: string, requested: DebtStatus,
      note: string): DraftUpdate
    requires MayUpdate(st, userID, id, requested)
  {
    DraftUpdate(id, st.debts[id], counterpartyName, UpdateStatus(st.debts[id], requested).value, note)
  }

  function AfterWrite(sys: System, p: DraftUpdate): System {
    if p.id in sys.st.debts then sys.(st := Relabelled(sys.st, p.id, p.counterpartyName, p.status, p.note)) else sys
  }

  function AfterLedgerCall(sys: System, op: Op): System {
    if op.Retain? then sys
    else
      var books := Apply(Books(sys.st.db, sys.opening), op);
      sys.(st := sys.st.(db := books.db), opening := books.opening,
           edited := if op.Update? then sys.edited + {op.id} else sys.edited)
  }

  function Exec(sys: System, step: Step): System {
    match step
    case CreateDebt(userID, debtID, txID, input, now) =>
      if CreateDebtSucceeds(sys.st, userID, debtID, txID, input, now)
      then sys.(st := AfterCreateDebt(sys.st, userID, debtID, txID, input, now),
                own := if input.originationID.None? then sys.own + {debtID} else sys.own)
      else sys
    case PayDebt(userID, id, txID, amountMinor, paidAt, note) =>
      if PaySucceeds(sys.st, userID, id, txID, amountMinor, paidAt, note)
      then sys.(st := AfterPay(sys.st, userID, id, txID, amountMinor, paidAt, note))
      else sys
    case ReadForUpdate(sid, userID, id, counterpartyName, requested, note) =>
      if MayUpdate(sys.st, userID, id, requested)
      then sys.(pending := sys.pending[sid := Drafted(sys.st, userID, id, counterpartyName, requested, note)])
      else sys
    case WriteUpdate(sid) =>
      if sid in sys.pending then AfterWrite(sys.(pending := sys.pending - {sid}), sys.pending[sid]) else sys
    case UpdateAtOnce(userID, id, counterpartyName, requested, note) =>
      if MayUpdate(sys.st, userID, id, requested)
      then AfterWrite(sys, Drafted(sys.st, userID, id, counterpartyName, requested, note)) else sys
    case CancelDebt(userID, id) => sys.(st := AfterCancel(sys.st, userID, id))
    case LedgerCall(op) => AfterLedgerCall(sys, op)
  }

  function ExecAll(sys: System, steps: seq<Step>): System {
    if steps == [] then sys else Exec(ExecAll(sys, steps[..|steps| - 1]), steps[|steps| - 1])
  }

  function Start(db: Database, opening: map<Id, int>): System {
    System(State(db, map[], map[]), opening, map[], {}, {})
  }

  // ---------------------------------------------------------------- amounts, in every interleaving

  /** What an update has decided fits the row it read, which has the principal the debt still has. */
  predicate DraftOk(p: DraftUpdate, debts: map<Id, Debt>) {
    && p.id in debts && p.read.principalMinor == debts[p.id].principalMinor
    && ValidAmounts(p.read.principalMinor, p.read.paidMinor) && p.read.paidMinor <= debts[p.id].paidMinor
    && Consistent(p.read.principalMinor, p.read.paidMinor, p.status)
  }

  predicate PendingOk(pending: map<Sid, DraftUpdate>, debts: map<Id, Debt>) {
    forall sid :: sid in pending ==> DraftOk(pending[sid], debts)
  }

  ghost predicate AmountsOk(sys: System) {
    DebtsOk(sys.st) && PendingOk(sys.pending, sys.st.debts)
  }

  lemma {:induction false} CreateKeepsDebts(st: State, userID: Id, debtID: Id, txID: Id, input: DebtInput,
      now: Instant)
    requires DebtsOk(st) && CreateDebtSucceeds(st, userID, debtID, txID, input, now)
    ensures DebtsOk(AfterCreateDebt(st, userID, debtID, txID, input, now))
  {
    var posted := Originated(st, userID, txID, input, now);
    LedgerChangeKeepsDebts(st, posted.db);
    RecordKeepsDebts(posted, userID, debtID, input,
                     if input.originationID.Some? then input.originationID.value else txID, now);
  }

  lemma DraftFits(st: State, userID: Id, id: Id, counterpartyName: string, requested: DebtStatus, note: string)
    requires RowsOk(st.debts, st.db.retained) && MayUpdate(st, userID, id, requested)
    ensures DraftOk(Drafted(st, userID, id, counterpartyName, requested, note), st.debts)
  {
    assert RowOk(st.debts[id], st.db.retained);
  }

  lemma DraftIsKnown(p: DraftUpdate, debts: map<Id, Debt>)
    requires DraftOk(p, debts)
    ensures p.id in debts && !p.status.OtherStatus?
  {
  }

  lemma {:induction false} WriteKeepsDebts(st: State, p: DraftUpdate)
    requires DebtsOk(st) && p.id in st.debts && !p.status.OtherStatus?
    ensures DebtsOk(Relabelled(st, p.id, p.counterpartyName, p.status, p.note))
  {
    StatusChangeKeepsDebts(st, p.id, Relabelled(st, p.id, p.counterpartyName, p.status, p.note).debts[p.id]);
  }

  lemma LedgerCallRetains(db: Database, opening: map<Id, int>, op: Op)
    requires !op.Retain?
    ensures Apply(Books(db, opening), op).db.retained == db.retained
  {
  }

  lemma {:induction false} LedgerCallKeepsDebts(sys: System, op: Op)
    requires DebtsOk(sys.st)
    ensures DebtsOk(AfterLedgerCall(sys, op).st)
  {
    if !op.Retain? {
      LedgerCallRetains(sys.st.db, sys.opening, op);
      LedgerChangeKeepsDebts(sys.st, Apply(Books(sys.st.db, sys.opening), op).db);
    }
  }

  lemma {:induction false} UpdateKeepsDebts(sys: System, step: Step)
    requires AmountsOk(sys) && (step.WriteUpdate? || step.UpdateAtOnce? || step.ReadForUpdate?)
    ensures DebtsOk(Exec(sys, step).st)
  {
    if step.WriteUpdate? && step.sid in sys.pending {
      DraftIsKnown(sys.pending[step.sid], sys.st.debts);
      WriteKeepsDebts(sys.st, sys.pending[step.sid]);
    } else if step.UpdateAtOnce? && MayUpdate(sys.st, step.userID, step.id, step.requested) {
      var p := Drafted(sys.st, step.userID, step.id, step.counterpartyName, step.requested, step.note);
      DraftFits(sys.st, step.userID, step.id, step.counterpartyName, step.requested, step.note);
      DraftIsKnown(p, sys.st.debts);
      WriteKeepsDebts(sys.st, p);
    }
  }

  lemma {:induction false} CreateStepKeepsDebts(sys: System, step: Step)
    requires DebtsOk(sys.st) && step.CreateDebt?
    ensures DebtsOk(Exec(sys, step).st)
  {
    if CreateDebtSucceeds(sys.st, step.userID, step.debtID, step.txID, step.input, step.now) {
      CreateKeepsDebts(sys.st, step.userID, step.debtID, step.txID, step.input, step.now);
    }
  }

  lemma {:induction false} AcceptedPayKeepsDebts(st: State, userID: Id, id: Id, txID: Id, amountMinor: int,
      paidAt: Instant, note: string)
    requires DebtsOk(st) && PaySucceeds(st, userID, id, txID, amountMinor, paidAt, note)
    ensures DebtsOk(AfterPay(st, userID, id, txID, amountMinor, paidAt, note))
  {
    PayKeepsDebts(st, userID, id, txID, amountMinor, paidAt, note,
                  ApplyPayment(st.debts[id].State(), amountMinor).value);
  }

  lemma PayStepIs(sys: System, step: Step)
    requires step.PayDebt?
    requires PaySucceeds(sys.st, step.userID, step.id, step.txID, step.amountMinor, step.paidAt, step.note)
    ensures Exec(sys, step).st
         == AfterPay(sys.st, step.userID, step.id, step.txID, step.amountMinor, step.paidAt, step.note)
  {
  }

  lemma {:induction false} PayStepKeepsDebts(sys: System, step: Step)
    requires DebtsOk(sys.st) && step.PayDebt?
    ensures DebtsOk(Exec(sys, step).st)
  {
    if PaySucceeds(sys.st, step.userID, step.id, step.txID, step.amountMinor, step.paidAt, step.note) {
      PayStepIs(sys, step);
      AcceptedPayKeepsDebts(sys.st, step.userID, step.id, step.txID, step.amountMinor, step.paidAt, step.note);
    }
  }

  lemma {:induction false} CancelStepKeepsDebts(sys: System, step: Step)
    requires DebtsOk(sys.st) && step.CancelDebt?
    ensures DebtsOk(Exec(sys, step).st)
  {
    if Owned(sys.st, step.userID, step.id) {
      StatusChangeKeepsDebts(sys.st, step.id, sys.st.debts[step.id].(status := Cancelled));
    }
  }

  lemma {:induction false} StepKeepsDebts(sys: System, step: Step)
    requires AmountsOk(sys)
    ensures DebtsOk(Exec(sys, step).st)
  {
    if step.CreateDebt? {
      CreateStepKeepsDebts(sys, step);
    } else if step.PayDebt? {
      PayStepKeepsDebts(sys, step);
    } else if step.CancelDebt? {
      CancelStepKeepsDebts(sys, step);
    } else if step.LedgerCall? {
      LedgerCallKeepsDebts(sys, step.op);
    } else {
      UpdateKeepsDebts(sys, step);
    }
  }

  predicate Pays(st: State, step: Step, id: Id) {
    step.PayDebt? && step.id == id
    && PaySucceeds(st, step.userID, id, step.txID, step.amountMinor, step.paidAt, step.note)
  }

  predicate SameAmounts(debts: map<Id, Debt>, debts': map<Id, Debt>, id: Id) {
    id in debts && id in debts' && debts'[id].principalMinor == debts[id].principalMinor
    && debts'[id].paidMinor == debts[id].paidMinor
  }

  lemma OtherStepKeepsPaid(sys: System, step: Step, id: Id)
    requires id in sys.st.debts && !Pays(sys.st, step, id)
    ensures SameAmounts(sys.st.debts, Exec(sys, step).st.debts, id)
  {
  }

  lemma PayMovesPaid(sys: System, step: Step, id: Id)
    requires RowsOk(sys.st.debts, sys.st.db.retained) && Pays(sys.st, step, id)
    ensures
      var debts := Exec(sys, step).st.debts;
      && id in debts && debts[id].principalMinor == sys.st.debts[id].principalMinor
      && debts[id].paidMinor == sys.st.debts[id].paidMinor + step.amountMinor && step.amountMinor > 0
  {
    assert RowOk(sys.st.debts[id], sys.st.db.retained);
    PaidRow(sys.st.debts[id], step.amountMinor, ApplyPayment(sys.st.debts[id].State(), step.amountMinor).value,
            sys.st.db.retained, step.txID);
  }

  /** A debt keeps its principal, and only a payment of it moves its paid amount, upwards. */
  lemma {:induction false} StepMovesPaid(sys: System, step: Step, id: Id)
    requires RowsOk(sys.st.debts, sys.st.db.retained) && id in sys.st.debts
    ensures
      var debts := Exec(sys, step).st.debts;
      && id in debts && debts[id].principalMinor == sys.st.debts[id].principalMinor
      && debts[id].paidMinor >= sys.st.debts[id].paidMinor
      && (debts[id].paidMinor != sys.st.debts[id].paidMinor <==> Pays(sys.st, step, id))
  {
    if Pays(sys.st, step, id) {
      PayMovesPaid(sys, step, id);
    } else {
      OtherStepKeepsPaid(sys, step, id);
    }
  }

  lemma StepKeepsDraft(sys: System, step: Step, p: DraftUpdate)
    requires RowsOk(sys.st.debts, sys.st.db.retained) && DraftOk(p, sys.st.debts)
    ensures DraftOk(p, Exec(sys, step).st.debts)
  {
    StepMovesPaid(sys, step, p.id);
  }

  /** An update in flight after a step was in flight before, or the step has just read its debt. */
  lemma PendingAfter(sys: System, step: Step, sid: Sid)
    requires sid in Exec(sys, step).pending
    ensures
      || (sid in sys.pending && Exec(sys, step).pending[sid] == sys.pending[sid])
      || (&& step.ReadForUpdate? && step.sid == sid && MayUpdate(sys.st, step.userID, step.id, step.requested)
          && Exec(sys, step).pending[sid]
             == Drafted(sys.st, step.userID, step.id, step.counterpartyName, step.requested, step.note))
  {
  }

  lemma StepKeepsPending(sys: System, step: Step)
    requires AmountsOk(sys)
    ensures PendingOk(Exec(sys, step).pending, Exec(sys, step).st.debts)
  {
    forall sid | sid in Exec(sys, step).pending
      ensures DraftOk(Exec(sys, step).pending[sid], Exec(sys, step).st.debts)
    {
      PendingAfter(sys, step, sid);
      if sid in sys.pending && Exec(sys, step).pending[sid] == sys.pending[sid] {
        StepKeepsDraft(sys, step, sys.pending[sid]);
      } else {
        DraftFits(sys.st, step.userID, step.id, step.counterpartyName, step.requested, step.note);
        StepKeepsDraft(sys, step, Exec(sys, step).pending[sid]);
      }
    }
  }

  lemma {:induction false} StepKeepsAmounts(sys: System, step: Step)
    requires AmountsOk(sys)
    ensures AmountsOk(Exec(sys, step))
  {
    StepKeepsDebts(sys, step);
    StepKeepsPending(sys, step);
  }

  lemma {:induction false} RunKeepsAmounts(sys: System, steps: seq<Step>)
    requires AmountsOk(sys)
    ensures AmountsOk(ExecAll(sys, steps))
  {
    if steps != [] {
      RunKeepsAmounts(sys, steps[..|steps| - 1]);
      StepKeepsAmounts(ExecAll(sys, steps[..|steps| - 1]), steps[|steps| - 1]);
    }
  }

  lemma ReachableDebts(db: Database, opening: map<Id, int>, steps: seq<Step>)
    ensures AmountsOk(ExecAll(Start(db, opening), steps))
  {
    RunKeepsAmounts(Start(db, opening), steps);
  }

  /** The paid amount is the sum of the recorded payments and within the principal. */
  ghost predicate AmountsAgree(debt: Debt, payments: map<Id, DebtPayment>, id: Id) {
    debt.paidMinor == Sum(PaymentsOf(payments, id)) && ValidAmounts(debt.principalMinor, debt.paidMinor)
  }

  lemma AmountsOfDebt(st: State, id: Id)
    requires DebtsOk(st) && id in st.debts
    ensures RowOk(st.debts[id], st.db.retained)
    ensures AmountsAgree(st.debts[id], st.payments, id)
  {
  }

  /** However payments, updates and cancellations interleave, a debt's paid amount is the sum of its
      recorded payments and lies between zero and its principal. */
  lemma {:induction false} PaidIsSumOfPayments(db: Database, opening: map<Id, int>, steps: seq<Step>, id: Id)
    requires id in ExecAll(Start(db, opening), steps).st.debts
    ensures var st := ExecAll(Start(db, opening), steps).st; AmountsAgree(st.debts[id], st.payments, id)
  {
    ReachableDebts(db, opening, steps);
    AmountsOfDebt(ExecAll(Start(db, opening), steps).st, id);
  }
}

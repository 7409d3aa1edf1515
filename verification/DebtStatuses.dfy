/** Statuses of debts over whole runs: which interleavings of updates and payments leave a status that
    does not fit the amounts, after which the debt can no longer be paid. */
module DebtStatuses {
  import opened Common
  import opened Ledger
  import opened Debts
  import opened DebtRuns

  predicate StatusOk(debt: Debt) {
    Consistent(debt.principalMinor, debt.paidMinor, debt.status)
  }

  predicate StatusesOk(debts: map<Id, Debt>) {
    forall id :: id in debts ==> StatusOk(debts[id])
  }

  /** The status the amounts of a debt call for. */
  function Stage(debt: Debt): DebtStatus {
    StatusForAmounts(debt.principalMinor, debt.paidMinor)
  }

  /** The write cancels the debt, or the debt is still at the stage it was at when it was read. */
  predicate InTime(p: DraftUpdate, debts: map<Id, Debt>) {
    p.id in debts && (p.status == Cancelled || Stage(debts[p.id]) == Stage(p.read))
  }

  predicate WritesInTime(sys: System, step: Step) {
    step.WriteUpdate? && step.sid in sys.pending ==> InTime(sys.pending[step.sid], sys.st.debts)
  }

  // ---------------------------------------------------------------- one step

  lemma PaidStatus(debt: Debt, amountMinor: int)
    requires ApplyPayment(debt.State(), amountMinor).Ok?
    ensures
      var next := ApplyPayment(debt.State(), amountMinor).value;
      StatusOk(debt.(paidMinor := next.paidMinor, status := next.status))
  {
  }

  lemma OtherStepKeepsStatuses(sys: System, step: Step)
    requires StatusesOk(sys.st.debts) && !step.WriteUpdate?
    ensures StatusesOk(Exec(sys, step).st.debts)
  {
    match step
    case CreateDebt(_, _, _, _, _) =>
    case PayDebt(userID, id, txID, amountMinor, paidAt, note) =>
      if PaySucceeds(sys.st, userID, id, txID, amountMinor, paidAt, note) {
        PaidStatus(sys.st.debts[id], amountMinor);
        PaidTables(sys.st, userID, id, txID, amountMinor, paidAt, note,
                   ApplyPayment(sys.st.debts[id].State(), amountMinor).value);
      }
    case ReadForUpdate(_, _, _, _, _, _) =>
    case UpdateAtOnce(_, _, _, _, _) =>
    case CancelDebt(_, _) =>
    case LedgerCall(_) =>
  }

  lemma WrittenStatus(p: DraftUpdate, debts: map<Id, Debt>)
    requires DraftOk(p, debts)
    ensures StatusOk(debts[p.id].(counterpartyName := p.counterpartyName, status := p.status, note := p.note))
       <==> InTime(p, debts)
  {
  }

  lemma WriteOutcome(sys: System, sid: Sid)
    requires sid in sys.pending && DraftOk(sys.pending[sid], sys.st.debts)
    ensures
      var debts := Exec(sys, WriteUpdate(sid)).st.debts;
      var p := sys.pending[sid];
      && p.id in sys.st.debts && debts.Keys == sys.st.debts.Keys
      && (forall id :: id in debts && id != p.id ==> debts[id] == sys.st.debts[id])
      && (StatusOk(debts[p.id]) <==> InTime(p, sys.st.debts))
  {
    WrittenStatus(sys.pending[sid], sys.st.debts);
  }

  lemma StepKeepsStatusesIff(sys: System, step: Step)
    requires AmountsOk(sys) && StatusesOk(sys.st.debts)
    ensures StatusesOk(Exec(sys, step).st.debts) <==> WritesInTime(sys, step)
  {
    if !step.WriteUpdate? {
      OtherStepKeepsStatuses(sys, step);
    } else if step.sid in sys.pending {
      WriteOutcome(sys, step.sid);
    }
  }

  // ---------------------------------------------------------------- whole runs

  /** Statuses fit after every step of the run. */
  predicate FitThroughout(sys: System, steps: seq<Step>) {
    StatusesOk(ExecAll(sys, steps).st.debts) && (steps != [] ==> FitThroughout(sys, steps[..|steps| - 1]))
  }

  predicate AllInTime(sys: System, steps: seq<Step>) {
    steps != [] ==>
      AllInTime(sys, steps[..|steps| - 1]) && WritesInTime(ExecAll(sys, steps[..|steps| - 1]), steps[|steps| - 1])
  }

  /** Statuses fit the amounts all through a run exactly when every update in it writes in time. */
  lemma {:induction false} FitIffInTime(db: Database, opening: map<Id, int>, steps: seq<Step>)
    ensures FitThroughout(Start(db, opening), steps) <==> AllInTime(Start(db, opening), steps)
  {
    if steps != [] {
      var front := steps[..|steps| - 1];
      FitIffInTime(db, opening, front);
      if FitThroughout(Start(db, opening), front) {
        ReachableDebts(db, opening, front);
        StepKeepsStatusesIff(ExecAll(Start(db, opening), front), steps[|steps| - 1]);
      }
    }
  }

  lemma {:induction false} StatusAfterIff(sys: System, step: Step, id: Id)
    requires PendingOk(sys.pending, sys.st.debts) && StatusesOk(sys.st.debts) && id in Exec(sys, step).st.debts
    requires step.WriteUpdate? ==> step.sid in sys.pending && sys.pending[step.sid].id == id
    ensures StatusOk(Exec(sys, step).st.debts[id]) <==> WritesInTime(sys, step)
  {
    if step.WriteUpdate? {
      WriteOutcome(sys, step.sid);
    } else {
      OtherStepKeepsStatuses(sys, step);
    }
  }

  lemma {:induction false} MismatchIffStatus(sys: System, id: Id, amountMinor: int)
    requires AmountsOk(sys) && id in sys.st.debts
    ensures ApplyPayment(sys.st.debts[id].State(), amountMinor) == Err(StatusMismatch) <==> !StatusOk(sys.st.debts[id])
  {
    AmountsOfDebt(sys.st, id);
    MismatchIff(sys.st.debts[id].State(), amountMinor);
  }

  /** As long as every update has written in time, no payment is refused for a status mismatch; after
      the first write that is late, every payment of its debt is. */
  lemma {:induction false} MismatchIffLate(db: Database, opening: map<Id, int>, steps: seq<Step>, step: Step,
      id: Id, amountMinor: int)
    requires AllInTime(Start(db, opening), steps)
    requires id in Exec(ExecAll(Start(db, opening), steps), step).st.debts
    requires step.WriteUpdate? ==>
      step.sid in ExecAll(Start(db, opening), steps).pending
      && ExecAll(Start(db, opening), steps).pending[step.sid].id == id
    ensures
      var sys := ExecAll(Start(db, opening), steps);
      ApplyPayment(Exec(sys, step).st.debts[id].State(), amountMinor) == Err(StatusMismatch)
      <==> !WritesInTime(sys, step)
  {
    var sys := ExecAll(Start(db, opening), steps);
    FitIffInTime(db, opening, steps);
    ReachableDebts(db, opening, steps);
    StepKeepsAmounts(sys, step);
    MismatchIffStatus(Exec(sys, step), id, amountMinor);
    StatusAfterIff(sys, step, id);
  }

  /** While every update has written in time, no payment is refused for a status mismatch. */
  lemma {:induction false} NoMismatchInTime(db: Database, opening: map<Id, int>, steps: seq<Step>, id: Id,
      amountMinor: int)
    requires AllInTime(Start(db, opening), steps) && id in ExecAll(Start(db, opening), steps).st.debts
    ensures
      var debt := ExecAll(Start(db, opening), steps).st.debts[id];
      StatusOk(debt) && ApplyPayment(debt.State(), amountMinor) != Err(StatusMismatch)
  {
    FitIffInTime(db, opening, steps);
    ReachableDebts(db, opening, steps);
    MismatchIffStatus(ExecAll(Start(db, opening), steps), id, amountMinor);
  }

  lemma {:induction false} AtomicIsInTime(sys: System, steps: seq<Step>)
    requires forall i :: 0 <= i < |steps| ==> !steps[i].WriteUpdate?
    ensures AllInTime(sys, steps)
  {
    if steps != [] {
      AtomicIsInTime(sys, steps[..|steps| - 1]);
    }
  }

  /** In particular, if every update reads and writes at once, no payment is ever refused for a mismatch. */
  lemma {:induction false} NoMismatchWhenAtomic(db: Database, opening: map<Id, int>, steps: seq<Step>, id: Id,
      amountMinor: int)
    requires forall i :: 0 <= i < |steps| ==> !steps[i].WriteUpdate?
    requires id in ExecAll(Start(db, opening), steps).st.debts
    ensures
      var debt := ExecAll(Start(db, opening), steps).st.debts[id];
      StatusOk(debt) && ApplyPayment(debt.State(), amountMinor) != Err(StatusMismatch)
  {
    AtomicIsInTime(Start(db, opening), steps);
    NoMismatchInTime(db, opening, steps, id, amountMinor);
  }

  // ---------------------------------------------------------------- between a read and its write

  /** The step is a payment of the debt that moves it on to another stage. */
  predicate MovesStage(sys: System, step: Step, id: Id) {
    && Pays(sys.st, step, id) && id in sys.st.debts && id in Exec(sys, step).st.debts
    && Stage(Exec(sys, step).st.debts[id]) != Stage(sys.st.debts[id])
  }

  /** Some payment in the run moves the debt on to another stage. */
  predicate StageMoves(sys: System, steps: seq<Step>, id: Id) {
    steps != [] &&
    (StageMoves(sys, steps[..|steps| - 1], id)
     || MovesStage(ExecAll(sys, steps[..|steps| - 1]), steps[|steps| - 1], id))
  }

  /** A stage that has been left does not come back while the paid amount grows. */
  lemma StagesAdvance(principal: int, a: int, b: int, c: int)
    requires 0 <= a <= b <= c <= principal
    ensures
      StatusForAmounts(principal, a) != StatusForAmounts(principal, c) <==>
        StatusForAmounts(principal, a) != StatusForAmounts(principal, b)
        || StatusForAmounts(principal, b) != StatusForAmounts(principal, c)
  {
  }

  /** The debt keeps its principal and is paid no less than before, within the principal. */
  predicate Advances(before: Debt, after: Debt) {
    after.principalMinor == before.principalMinor
    && 0 <= before.paidMinor <= after.paidMinor <= after.principalMinor
  }

  lemma {:induction false} MovesStageIff(sys: System, step: Step, id: Id)
    requires RowsOk(sys.st.debts, sys.st.db.retained) && id in sys.st.debts
    requires RowsOk(Exec(sys, step).st.debts, Exec(sys, step).st.db.retained)
    ensures id in Exec(sys, step).st.debts && Advances(sys.st.debts[id], Exec(sys, step).st.debts[id])
    ensures MovesStage(sys, step, id) <==> Stage(Exec(sys, step).st.debts[id]) != Stage(sys.st.debts[id])
  {
    StepMovesPaid(sys, step, id);
    assert RowOk(sys.st.debts[id], sys.st.db.retained);
    assert RowOk(Exec(sys, step).st.debts[id], Exec(sys, step).st.db.retained);
  }

  lemma {:induction false} LastMovesIff(start: Debt, mid: System, last: Step, id: Id)
    requires AmountsOk(mid) && id in mid.st.debts && Advances(start, mid.st.debts[id])
    ensures id in Exec(mid, last).st.debts && Advances(start, Exec(mid, last).st.debts[id])
    ensures Stage(Exec(mid, last).st.debts[id]) != Stage(start)
       <==> Stage(mid.st.debts[id]) != Stage(start) || MovesStage(mid, last, id)
  {
    StepKeepsDebts(mid, last);
    MovesStageIff(mid, last, id);
    StagesAdvance(start.principalMinor, start.paidMinor, mid.st.debts[id].paidMinor,
                  Exec(mid, last).st.debts[id].paidMinor);
  }

  /** A debt keeps its principal and never becomes less paid, so a stage it has left does not come back. */
  lemma {:induction false} StageMovesIff(sys: System, steps: seq<Step>, id: Id)
    requires AmountsOk(sys) && id in sys.st.debts
    ensures id in ExecAll(sys, steps).st.debts && Advances(sys.st.debts[id], ExecAll(sys, steps).st.debts[id])
    ensures StageMoves(sys, steps, id) <==> Stage(ExecAll(sys, steps).st.debts[id]) != Stage(sys.st.debts[id])
  {
    if steps == [] {
      AmountsOfDebt(sys.st, id);
    } else {
      var front := steps[..|steps| - 1];
      StageMovesIff(sys, front, id);
      RunKeepsAmounts(sys, front);
      LastMovesIff(sys.st.debts[id], ExecAll(sys, front), steps[|steps| - 1], id);
    }
  }

  predicate LeavesAlone(steps: seq<Step>, sid: Sid) {
    forall i :: 0 <= i < |steps| && (steps[i].ReadForUpdate? || steps[i].WriteUpdate?) ==> steps[i].sid != sid
  }

  lemma StepLeavesDraft(sys: System, step: Step, sid: Sid)
    requires sid in sys.pending && LeavesAlone([step], sid)
    ensures sid in Exec(sys, step).pending && Exec(sys, step).pending[sid] == sys.pending[sid]
  {
    assert [step][0] == step;
  }

  lemma {:induction false} DraftWaits(sys: System, steps: seq<Step>, sid: Sid)
    requires sid in sys.pending && LeavesAlone(steps, sid)
    ensures sid in ExecAll(sys, steps).pending && ExecAll(sys, steps).pending[sid] == sys.pending[sid]
  {
    if steps != [] {
      var front := steps[..|steps| - 1];
      assert LeavesAlone(front, sid);
      DraftWaits(sys, front, sid);
      assert LeavesAlone([steps[|steps| - 1]], sid);
      StepLeavesDraft(ExecAll(sys, front), steps[|steps| - 1], sid);
    }
  }

  /** An update that reads its debt in any reachable state and writes after any further steps leaves the
      status in agreement with the amounts exactly when it cancels the debt or none of those steps is a
      payment that moved the debt on to another stage. */
  lemma {:induction false} LateWriteIff(db: Database, opening: map<Id, int>, before: seq<Step>, sid: Sid, userID: Id,
      id: Id, counterpartyName: string, requested: DebtStatus, note: string, between: seq<Step>)
    requires MayUpdate(ExecAll(Start(db, opening), before).st, userID, id, requested) && LeavesAlone(between, sid)
    ensures
      var read := Exec(ExecAll(Start(db, opening), before),
                       ReadForUpdate(sid, userID, id, counterpartyName, requested, note));
      var written := Exec(ExecAll(read, between), WriteUpdate(sid));
      && sid in read.pending && id in written.st.debts
      && (StatusOk(written.st.debts[id]) <==>
            read.pending[sid].status == Cancelled || !StageMoves(read, between, id))
  {
    var sys := ExecAll(Start(db, opening), before);
    var step := ReadForUpdate(sid, userID, id, counterpartyName, requested, note);
    var read := Exec(sys, step);
    ReachableDebts(db, opening, before);
    StepKeepsAmounts(sys, step);
    DraftWaits(read, between, sid);
    StageMovesIff(read, between, id);
    RunKeepsAmounts(read, between);
    WriteOutcome(ExecAll(read, between), sid);
  }

  /** The interleaving: an update reads an open debt, a payment settles the debt, and the update writes
      what it had decided. The debt is paid in full but open, and its next payment is refused. */
  lemma LateWriteCanReopen(sys: System, sid: Sid, userID: Id, id: Id, txID: Id, paidAt: Instant, amountMinor: int)
    requires id in sys.st.debts && sys.st.debts[id].status == Open
    requires sys.st.debts[id].principalMinor > 0 && sys.st.debts[id].paidMinor == 0
    requires PaySucceeds(sys.st, userID, id, txID, sys.st.debts[id].principalMinor, paidAt, "")
    ensures
      var debt := sys.st.debts[id];
      var read := Exec(sys, ReadForUpdate(sid, userID, id, debt.counterpartyName, UNSET_STATUS, ""));
      var paid := Exec(read, PayDebt(userID, id, txID, debt.principalMinor, paidAt, ""));
      var written := Exec(paid, WriteUpdate(sid)).st.debts;
      && paid.st.debts[id].status == PaidOff
      && id in written && written[id].paidMinor == debt.principalMinor && written[id].status == Open
      && ApplyPayment(written[id].State(), amountMinor) == Err(StatusMismatch)
  {
  }
}

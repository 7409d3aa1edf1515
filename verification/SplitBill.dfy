/** Splitting an expense: one expense for the whole amount and one receivable debt for each share. */
module SplitBill {
  import opened Common
  import opened Sums
  import L = Ledger
  import opened LedgerRuns
  import opened Debts
  import opened DebtRuns
  import opened DebtCash
  import TransactionRepository
  import DebtRepository

  datatype Split = Split(
    counterpartyName: string,
    amountMinor: int64,
    disbursementCategoryID: Id,
    paymentCategoryID: Id)

  datatype SplitInput = SplitInput(
    walletID: Id,
    categoryID: Id,
    totalMinor: int64,
    transactionAt: Instant,
    note: string,
    tagIDs: seq<Id>,
    splits: seq<Split>)

  datatype SplitError = ShareNotPositive | SharesExceedTotal | ExpenseRefused | ShareRefused(reason: DebtError)

  function ExpenseInput(input: SplitInput): L.TransactionInput {
    L.TransactionInput(L.Expense, input.walletID, NO_ID, input.categoryID, input.totalMinor, 0, input.tagIDs,
                       input.transactionAt, input.note)
  }

  function ShareInput(input: SplitInput, i: nat, txID: Id): DebtInput
    requires i < |input.splits|
  {
    var split := input.splits[i];
    DebtInput(Receivable, split.counterpartyName, input.walletID, split.disbursementCategoryID, split.paymentCategoryID,
              Some(txID), split.amountMinor, input.transactionAt,
              input.note + " (Split: " + split.counterpartyName + ")")
  }

  // ---------------------------------------------------------------- the sum of the shares

  /** The first n shares added up. */
  function Total(splits: seq<Split>, n: nat): int
    requires n <= |splits|
  {
    if n == 0 then 0 else Total(splits, n - 1) + splits[n - 1].amountMinor
  }

  predicate AllPositive(splits: seq<Split>) {
    forall i :: 0 <= i < |splits| ==> splits[i].amountMinor > 0
  }

  lemma {:induction false} TotalIsPositive(splits: seq<Split>, n: nat)
    requires AllPositive(splits) && n <= |splits|
    ensures 0 <= Total(splits, n)
  {
    if n > 0 {
      TotalIsPositive(splits, n - 1);
    }
  }

  lemma WrapTwice(a: int, b: int)
    ensures Wrap64(Wrap64(a) + b) == Wrap64(a + b)
  {
  }

  /** The unchecked sum of the shares lets a split through although its shares exceed the total exactly
      when their sum does not fit 64 bits and wraps around to no more than the total. */
  lemma GuardIsExactIff(splits: seq<Split>, totalMinor: int64)
    requires AllPositive(splits)
    ensures
      var exact := Total(splits, |splits|);
      (Wrap64(exact) > totalMinor <==> exact > totalMinor) <==> exact <= MAX_INT64 || Wrap64(exact) > totalMinor
  {
    TotalIsPositive(splits, |splits|);
  }

  // ---------------------------------------------------------------- the tables after a split

  /** The tables after the expense and the first n shares, unless one of them is refused. */
  function AfterShares(st: State, userID: Id, txID: Id, debtIDs: nat -> Id, input: SplitInput, now: Instant,
      n: nat): Option<State>
    requires n <= |input.splits|
  {
    if n == 0 then
      if L.CreateSucceeds(st.db, userID, txID, ExpenseInput(input))
      then Some(st.(db := L.AfterCreate(st.db, userID, txID, ExpenseInput(input)))) else None
    else
      var before := AfterShares(st, userID, txID, debtIDs, input, now, n - 1);
      if before.Some?
         && CreateDebtSucceeds(before.value, userID, debtIDs(n - 1), txID, ShareInput(input, n - 1, txID), now)
      then Some(AfterCreateDebt(before.value, userID, debtIDs(n - 1), txID, ShareInput(input, n - 1, txID), now))
      else None
  }

  /** What a split commits; None when it is refused. */
  function AfterSplit(st: State, userID: Id, txID: Id, debtIDs: nat -> Id, input: SplitInput,
      now: Instant): Option<State> {
    if !AllPositive(input.splits) || Wrap64(Total(input.splits, |input.splits|)) > input.totalMinor then None
    else AfterShares(st, userID, txID, debtIDs, input, now, |input.splits|)
  }

  lemma {:induction false} RefusedStaysRefused(st: State, userID: Id, txID: Id, debtIDs: nat -> Id,
      input: SplitInput, now: Instant, m: nat, n: nat)
    requires m <= n <= |input.splits| && AfterShares(st, userID, txID, debtIDs, input, now, m).None?
    ensures AfterShares(st, userID, txID, debtIDs, input, now, n).None?
  {
    if m < n {
      RefusedStaysRefused(st, userID, txID, debtIDs, input, now, m, n - 1);
    }
  }

  /** The database takes share i as a debt under the given identifier: both its categories are the user's. */
  predicate ShareFits(st: State, userID: Id, debtID: Id, split: Split) {
    && debtID !in st.debts
    && L.OwnsCategory(st.db, userID, split.paymentCategoryID, L.Income)
    && split.disbursementCategoryID in st.db.categories
    && st.db.categories[split.disbursementCategoryID].userID == userID
  }

  predicate SharesFit(st: State, userID: Id, debtIDs: nat -> Id, splits: seq<Split>, n: nat)
    requires n <= |splits|
  {
    && (forall i: nat :: i < n ==> ShareFits(st, userID, debtIDs(i), splits[i]))
    && (forall i: nat :: i < n ==> OfItsOwn(debtIDs, i))
  }

  /** No earlier share has the same identifier. */
  predicate OfItsOwn(debtIDs: nat -> Id, n: nat) {
    forall i: nat :: i < n ==> debtIDs(i) != debtIDs(n)
  }

  lemma SharesFitOneMore(st: State, userID: Id, debtIDs: nat -> Id, splits: seq<Split>, n: nat)
    requires n < |splits|
    ensures SharesFit(st, userID, debtIDs, splits, n + 1)
       <==> && SharesFit(st, userID, debtIDs, splits, n)
            && ShareFits(st, userID, debtIDs(n), splits[n]) && OfItsOwn(debtIDs, n)
  {
  }

  /** What the shares before the n-th have left alone: wallets and categories, and debts but for theirs. */
  ghost predicate SharesBefore(st: State, st': State, userID: Id, txID: Id, debtIDs: nat -> Id, n: nat) {
    && st'.db.wallets.Keys == st.db.wallets.Keys && st'.db.categories == st.db.categories
    && txID in st'.db.transactions && st'.db.transactions[txID].userID == userID
    && forall id :: id in st'.debts <==> id in st.debts || exists i: nat :: i < n && debtIDs(i) == id
  }

  lemma ShareAcceptedIff(st: State, before: State, userID: Id, txID: Id, debtIDs: nat -> Id, input: SplitInput,
      now: Instant, n: nat)
    requires SharesBefore(st, before, userID, txID, debtIDs, n) && n < |input.splits|
    requires input.walletID in st.db.wallets && input.splits[n].amountMinor > 0
    ensures CreateDebtSucceeds(before, userID, debtIDs(n), txID, ShareInput(input, n, txID), now)
       <==> ShareFits(st, userID, debtIDs(n), input.splits[n]) && OfItsOwn(debtIDs, n)
    ensures
      CreateDebtSucceeds(before, userID, debtIDs(n), txID, ShareInput(input, n, txID), now) ==>
        SharesBefore(st, AfterCreateDebt(before, userID, debtIDs(n), txID, ShareInput(input, n, txID), now),
                     userID, txID, debtIDs, n + 1)
  {
  }

  /** The first n shares are taken exactly when each of them fits, and then have changed nothing else. */
  ghost predicate SharesSettled(st: State, userID: Id, txID: Id, debtIDs: nat -> Id, input: SplitInput, now: Instant,
      n: nat)
    requires n <= |input.splits|
  {
    var after := AfterShares(st, userID, txID, debtIDs, input, now, n);
    && (after.Some? <==> SharesFit(st, userID, debtIDs, input.splits, n))
    && (after.Some? ==> SharesBefore(st, after.value, userID, txID, debtIDs, n))
  }

  lemma ExpenseSettles(st: State, userID: Id, txID: Id, debtIDs: nat -> Id, input: SplitInput, now: Instant)
    requires L.CreateSucceeds(st.db, userID, txID, ExpenseInput(input))
    ensures SharesSettled(st, userID, txID, debtIDs, input, now, 0)
  {
  }

  lemma {:induction false} ShareSettles(st: State, userID: Id, txID: Id, debtIDs: nat -> Id,
      input: SplitInput, now: Instant, n: nat)
    requires n < |input.splits| && AllPositive(input.splits) && input.walletID in st.db.wallets
    requires SharesSettled(st, userID, txID, debtIDs, input, now, n)
    ensures SharesSettled(st, userID, txID, debtIDs, input, now, n + 1)
  {
    SharesFitOneMore(st, userID, debtIDs, input.splits, n);
    var before := AfterShares(st, userID, txID, debtIDs, input, now, n);
    if before.Some? {
      ShareAcceptedIff(st, before.value, userID, txID, debtIDs, input, now, n);
    }
  }

  lemma {:induction false} SharesSettle(st: State, userID: Id, txID: Id, debtIDs: nat -> Id, input: SplitInput,
      now: Instant, n: nat)
    requires n <= |input.splits| && AllPositive(input.splits) && input.walletID in st.db.wallets
    requires L.CreateSucceeds(st.db, userID, txID, ExpenseInput(input))
    ensures SharesSettled(st, userID, txID, debtIDs, input, now, n)
  {
    if n == 0 {
      ExpenseSettles(st, userID, txID, debtIDs, input, now);
    } else {
      SharesSettle(st, userID, txID, debtIDs, input, now, n - 1);
      ShareSettles(st, userID, txID, debtIDs, input, now, n - 1);
    }
  }

  /** A split is committed exactly when its shares are positive, their wrapped sum is within the total,
      the expense can be posted, and each share can be recorded as a debt of its own. */
  lemma {:induction false} SplitAcceptedIff(st: State, userID: Id, txID: Id, debtIDs: nat -> Id, input: SplitInput,
      now: Instant)
    ensures AfterSplit(st, userID, txID, debtIDs, input, now).Some? <==>
      && AllPositive(input.splits)
      && Wrap64(Total(input.splits, |input.splits|)) <= input.totalMinor
      && L.CreateSucceeds(st.db, userID, txID, ExpenseInput(input))
      && SharesFit(st, userID, debtIDs, input.splits, |input.splits|)
  {
    if AllPositive(input.splits) {
      if L.CreateSucceeds(st.db, userID, txID, ExpenseInput(input)) {
        SharesSettle(st, userID, txID, debtIDs, input, now, |input.splits|);
      } else {
        RefusedStaysRefused(st, userID, txID, debtIDs, input, now, 0, |input.splits|);
      }
    }
  }

  function OneWallet(): State {
    var categories := map["out" := L.Category("u", L.ExpenseCategory), "in" := L.Category("u", L.IncomeCategory)];
    State(L.Database(map["w" := L.Wallet("u", 0)], map[], categories, map[], map[], {}), map[], map[])
  }

  function HugeShares(): seq<Split> {
    [Split("a", MAX_INT64, "out", "in"), Split("b", MAX_INT64, "out", "in"), Split("c", 2, "out", "in")]
  }

  /** The input: three shares, two of them of the largest amount, pass the guard for a total of one,
      because their sum wraps around to zero, and the split is committed. */
  lemma {:induction false} WrappedSumCanPass(debtIDs: nat -> Id, at: Instant, now: Instant)
    requires at != ZERO_TIME && forall i: nat, j: nat :: i < j ==> debtIDs(i) != debtIDs(j)
    ensures Wrap64(Total(HugeShares(), 3)) <= 1 < Total(HugeShares(), 3)
    ensures AfterSplit(OneWallet(), "u", "t", debtIDs, SplitInput("w", "out", 1, at, "", [], HugeShares()), now).Some?
  {
    var splits := HugeShares();
    assert Total(splits, 1) == MAX_INT64;
    assert Total(splits, 2) == 2 * MAX_INT64;
    SplitAcceptedIff(OneWallet(), "u", "t", debtIDs, SplitInput("w", "out", 1, at, "", [], splits), now);
  }

  class SplitBillUseCase {
    const debts: DebtRepository.DebtRepository

    constructor (repository: DebtRepository.DebtRepository)
      ensures debts == repository
    {
      debts := repository;
    }

    /** Adds the shares up in 64-bit arithmetic. */
    method SumShares(splits: seq<Split>) returns (r: Result<int64, SplitError>)
      ensures r == if AllPositive(splits) then Ok(Wrap64(Total(splits, |splits|))) else Err(ShareNotPositive)
    {
      var totalSplitMinor: int64 := 0;
      for i := 0 to |splits|
        invariant totalSplitMinor == Wrap64(Total(splits, i))
        invariant forall k :: 0 <= k < i ==> splits[k].amountMinor > 0
      {
        if splits[i].amountMinor <= 0 {
          return Err(ShareNotPositive);
        }
        WrapTwice(Total(splits, i), splits[i].amountMinor);
        totalSplitMinor := Wrap64(totalSplitMinor + splits[i].amountMinor);
      }
      return Ok(totalSplitMinor);
    }

    /** One receivable for each share; stops at the first that is refused. */
    method CreateShares(userID: Id, txID: Id, debtIDs: nat -> Id, input: SplitInput, now: Instant, ghost begun: State)
      returns (r: Result<seq<Id>, SplitError>)
      requires AfterShares(begun, userID, txID, debtIDs, input, now, 0) == Some(debts.Tables())
      modifies debts, debts.transactions
      ensures r.Ok? <==> AfterShares(begun, userID, txID, debtIDs, input, now, |input.splits|).Some?
      ensures r.Ok? ==> AfterShares(begun, userID, txID, debtIDs, input, now, |input.splits|) == Some(debts.Tables())
      ensures r.Ok? ==> |r.value| == |input.splits| && forall i :: 0 <= i < |r.value| ==> r.value[i] == debtIDs(i)
    {
      var ids := [];
      for i := 0 to |input.splits|
        invariant AfterShares(begun, userID, txID, debtIDs, input, now, i) == Some(debts.Tables())
        invariant |ids| == i && forall k :: 0 <= k < i ==> ids[k] == debtIDs(k)
      {
        var created := debts.CreateInTx(userID, debtIDs(i), txID, ShareInput(input, i, txID), now);
        if created.Err? {
          RefusedStaysRefused(begun, userID, txID, debtIDs, input, now, i + 1, |input.splits|);
          return Err(ShareRefused(created.error));
        }
        ids := ids + [created.value];
      }
      return Ok(ids);
    }

    /** All or nothing: the expense and every share are committed together, or the tables stay as they
        were. */
    method SplitExpense(userID: Id, txID: Id, debtIDs: nat -> Id, input: SplitInput, now: Instant)
      returns (r: Result<seq<Id>, SplitError>)
      modifies debts, debts.transactions
      ensures
        match AfterSplit(old(debts.Tables()), userID, txID, debtIDs, input, now)
        case Some(after) => r.Ok? && debts.Tables() == after
        case None => r.Err? && debts.Tables() == old(debts.Tables())
      ensures r.Ok? ==> |r.value| == |input.splits| && forall i :: 0 <= i < |r.value| ==> r.value[i] == debtIDs(i)
    {
      var totalSplit := SumShares(input.splits);
      if totalSplit.Err? {
        return Err(totalSplit.error);
      }
      if totalSplit.value > input.totalMinor {
        return Err(SharesExceedTotal);
      }
      var begun := debts.Tables();
      var expense := debts.transactions.CreateInTx(userID, txID, ExpenseInput(input));
      if expense.Err? {
        RefusedStaysRefused(begun, userID, txID, debtIDs, input, now, 0, |input.splits|);
        debts.Rollback(begun);
        return Err(ExpenseRefused);
      }
      r := CreateShares(userID, txID, debtIDs, input, now, begun);
      if r.Err? {
        debts.Rollback(begun);
      }
    }
  }

  // ---------------------------------------------------------------- what a split costs

  /** A split is a run of single steps. */
  function SplitSteps(userID: Id, txID: Id, debtIDs: nat -> Id, input: SplitInput, now: Instant, n: nat): seq<Step>
    requires n <= |input.splits|
  {
    if n == 0 then [LedgerCall(Create(userID, txID, ExpenseInput(input)))]
    else SplitSteps(userID, txID, debtIDs, input, now, n - 1)
         + [CreateDebt(userID, debtIDs(n - 1), txID, ShareInput(input, n - 1, txID), now)]
  }

  lemma ExecOneMore(sys: System, steps: seq<Step>, step: Step)
    ensures ExecAll(sys, steps + [step]) == Exec(ExecAll(sys, steps), step)
  {
    assert (steps + [step])[..|steps|] == steps;
  }

  lemma {:induction false} SplitIsRun(sys: System, userID: Id, txID: Id, debtIDs: nat -> Id, input: SplitInput,
      now: Instant, n: nat)
    requires n <= |input.splits| && AfterShares(sys.st, userID, txID, debtIDs, input, now, n).Some?
    ensures ExecAll(sys, SplitSteps(userID, txID, debtIDs, input, now, n)).st
         == AfterShares(sys.st, userID, txID, debtIDs, input, now, n).value
  {
    if n == 0 {
      ExecOneMore(sys, [], LedgerCall(Create(userID, txID, ExpenseInput(input))));
      assert [] + SplitSteps(userID, txID, debtIDs, input, now, 0) == SplitSteps(userID, txID, debtIDs, input, now, 0);
    } else {
      SplitIsRun(sys, userID, txID, debtIDs, input, now, n - 1);
      ExecOneMore(sys, SplitSteps(userID, txID, debtIDs, input, now, n - 1),
                  CreateDebt(userID, debtIDs(n - 1), txID, ShareInput(input, n - 1, txID), now));
    }
  }

  /** The debt of the i-th share. */
  predicate IsShare(debts: map<Id, Debt>, debtIDs: nat -> Id, input: SplitInput, i: nat)
    requires i < |input.splits|
  {
    && debtIDs(i) in debts && debts[debtIDs(i)].kind == Receivable
    && debts[debtIDs(i)].walletID == input.walletID && debts[debtIDs(i)].principalMinor == input.splits[i].amountMinor
  }

  lemma {:induction false} SharesRecorded(st: State, userID: Id, txID: Id, debtIDs: nat -> Id, input: SplitInput,
      now: Instant, n: nat)
    requires n <= |input.splits| && AfterShares(st, userID, txID, debtIDs, input, now, n).Some?
    ensures forall i: nat :: i < n ==>
              IsShare(AfterShares(st, userID, txID, debtIDs, input, now, n).value.debts, debtIDs, input, i)
    ensures forall i: nat, j: nat :: i < j < n ==> debtIDs(i) != debtIDs(j)
  {
    if n > 0 {
      SharesRecorded(st, userID, txID, debtIDs, input, now, n - 1);
      var before := AfterShares(st, userID, txID, debtIDs, input, now, n - 1).value;
      var after := AfterShares(st, userID, txID, debtIDs, input, now, n).value;
      var last: nat := n - 1;
      forall i: nat | i < last ensures debtIDs(i) != debtIDs(last) && IsShare(after.debts, debtIDs, input, i) {
        assert IsShare(before.debts, debtIDs, input, i);
      }
      assert IsShare(after.debts, debtIDs, input, last);
      forall i: nat, j: nat | i < j < n ensures debtIDs(i) != debtIDs(j) {
        assert j < last || j == last;
      }
    }
  }

  lemma {:induction false} RunKeepsTerms(sys: System, steps: seq<Step>)
    requires L.LedgerInv(sys.st.db, sys.opening)
    ensures SameTerms(sys.st.debts, ExecAll(sys, steps).st.debts)
  {
    if steps != [] {
      var before := ExecAll(sys, steps[..|steps| - 1]);
      RunKeepsTerms(sys, steps[..|steps| - 1]);
      DebtCash.RunKeepsLedger(sys, steps[..|steps| - 1]);
      StepStays(before, steps[|steps| - 1]);
    }
  }

  /** What the payments of the first n shares have done to wallet w. */
  ghost function SharesEffect(st: State, debtIDs: nat -> Id, w: Id, n: nat): int {
    if n == 0 then 0 else SharesEffect(st, debtIDs, w, n - 1) + Sum(PaymentEffects(st, debtIDs(n - 1), w))
  }

  /** What has been repaid of the first n shares. */
  function Repaid(debts: map<Id, Debt>, debtIDs: nat -> Id, n: nat): int {
    if n == 0 then 0
    else Repaid(debts, debtIDs, n - 1) + (if debtIDs(n - 1) in debts then debts[debtIDs(n - 1)].paidMinor else 0)
  }

  predicate ShareUnedited(sys: System, debtIDs: nat -> Id, input: SplitInput, i: nat)
    requires i < |input.splits|
  {
    IsShare(sys.st.debts, debtIDs, input, i) && PaymentsUnedited(sys.st, sys.edited, debtIDs(i))
  }

  lemma {:induction false} SharesMoveWallet(db: L.Database, opening: map<Id, int>, steps: seq<Step>,
      debtIDs: nat -> Id, input: SplitInput, n: nat)
    requires L.LedgerInv(db, opening) && n <= |input.splits|
    requires forall i: nat :: i < n ==> ShareUnedited(ExecAll(Start(db, opening), steps), debtIDs, input, i)
    ensures
      var st := ExecAll(Start(db, opening), steps).st;
      SharesEffect(st, debtIDs, input.walletID, n) == Repaid(st.debts, debtIDs, n)
  {
    if n > 0 {
      SharesMoveWallet(db, opening, steps, debtIDs, input, n - 1);
      assert ShareUnedited(ExecAll(Start(db, opening), steps), debtIDs, input, n - 1);
      PaymentsInRun(db, opening, steps, debtIDs(n - 1), input.walletID);
    }
  }

  predicate SharePaid(debts: map<Id, Debt>, debtIDs: nat -> Id, i: nat) {
    debtIDs(i) in debts && debts[debtIDs(i)].paidMinor == debts[debtIDs(i)].principalMinor
  }

  lemma {:induction false} RepaidInFull(debts: map<Id, Debt>, debtIDs: nat -> Id, input: SplitInput, n: nat)
    requires n <= |input.splits|
    requires forall i: nat :: i < n ==> IsShare(debts, debtIDs, input, i) && SharePaid(debts, debtIDs, i)
    ensures Repaid(debts, debtIDs, n) == Total(input.splits, n)
  {
    if n > 0 {
      RepaidInFull(debts, debtIDs, input, n - 1);
      assert IsShare(debts, debtIDs, input, n - 1) && SharePaid(debts, debtIDs, n - 1);
    }
  }

  lemma {:induction false} ExecAllAppend(sys: System, a: seq<Step>, b: seq<Step>)
    ensures ExecAll(sys, a + b) == ExecAll(ExecAll(sys, a), b)
  {
    if b == [] {
      assert a + b == a;
    } else {
      assert (a + b)[..|a + b| - 1] == a + b[..|b| - 1];
      ExecAllAppend(sys, a, b[..|b| - 1]);
    }
  }

  /** The system after a run that contains the split. */
  function SplitSystem(db: L.Database, opening: map<Id, int>, earlier: seq<Step>, later: seq<Step>,
                       userID: Id, txID: Id, debtIDs: nat -> Id, input: SplitInput, now: Instant): System
  {
    ExecAll(Start(db, opening), earlier + SplitSteps(userID, txID, debtIDs, input, now, |input.splits|) + later)
  }

  /** The shares of a split are still there, on the same terms, after whatever happens next. */
  lemma SharesStay(db: L.Database, opening: map<Id, int>, earlier: seq<Step>, later: seq<Step>,
                   userID: Id, txID: Id, debtIDs: nat -> Id, input: SplitInput, now: Instant, i: nat)
    requires L.LedgerInv(db, opening) && i < |input.splits|
    requires
      AfterShares(ExecAll(Start(db, opening), earlier).st, userID, txID, debtIDs, input, now, |input.splits|).Some?
    ensures
      IsShare(SplitSystem(db, opening, earlier, later, userID, txID, debtIDs, input, now).st.debts, debtIDs, input, i)
  {
    var split := SplitSteps(userID, txID, debtIDs, input, now, |input.splits|);
    var before := ExecAll(Start(db, opening), earlier);
    var during := ExecAll(before, split);
    ExecAllAppend(Start(db, opening), earlier, split);
    ExecAllAppend(Start(db, opening), earlier + split, later);
    SplitIsRun(before, userID, txID, debtIDs, input, now, |input.splits|);
    SharesRecorded(before.st, userID, txID, debtIDs, input, now, |input.splits|);
    assert IsShare(during.st.debts, debtIDs, input, i);
    DebtCash.RunKeepsLedger(Start(db, opening), earlier + split);
    RunKeepsTerms(during, later);
  }

  /** What the expense and the repayments have taken from the payer's wallet. */
  ghost function Cost(st: State, txID: Id, debtIDs: nat -> Id, input: SplitInput): int
    requires txID in st.db.transactions
  {
    -(st.db.transactions[txID].Effect(input.walletID) + SharesEffect(st, debtIDs, input.walletID, |input.splits|))
  }

  /** Nobody edited the expense or a repayment. */
  ghost predicate SplitUnedited(sys: System, userID: Id, txID: Id, debtIDs: nat -> Id, input: SplitInput) {
    && txID in sys.st.db.transactions && sys.st.db.transactions[txID] == L.RowFor(userID, ExpenseInput(input))
    && forall i: nat :: i < |input.splits| ==> PaymentsUnedited(sys.st, sys.edited, debtIDs(i))
  }

  ghost predicate AllRepaid(debts: map<Id, Debt>, debtIDs: nat -> Id, input: SplitInput) {
    forall i: nat :: i < |input.splits| ==> SharePaid(debts, debtIDs, i)
  }

  lemma AllSharesUnedited(db: L.Database, opening: map<Id, int>, earlier: seq<Step>, later: seq<Step>,
                          userID: Id, txID: Id, debtIDs: nat -> Id, input: SplitInput, now: Instant)
    requires L.LedgerInv(db, opening)
    requires
      AfterShares(ExecAll(Start(db, opening), earlier).st, userID, txID, debtIDs, input, now, |input.splits|).Some?
    requires SplitUnedited(SplitSystem(db, opening, earlier, later, userID, txID, debtIDs, input, now), userID, txID,
                           debtIDs, input)
    ensures
      var sys := SplitSystem(db, opening, earlier, later, userID, txID, debtIDs, input, now);
      forall i: nat :: i < |input.splits| ==> ShareUnedited(sys, debtIDs, input, i)
  {
    var sys := SplitSystem(db, opening, earlier, later, userID, txID, debtIDs, input, now);
    forall i: nat | i < |input.splits| ensures ShareUnedited(sys, debtIDs, input, i) {
      SharesStay(db, opening, earlier, later, userID, txID, debtIDs, input, now, i);
    }
  }

  /** As long as nobody edits its expense or its repayments, a split costs the payer's wallet the total
      less what has been repaid: exactly the total less the shares once all of them are repaid. */
  lemma SplitCostsTheRest(db: L.Database, opening: map<Id, int>, earlier: seq<Step>, later: seq<Step>,
                          userID: Id, txID: Id, debtIDs: nat -> Id, input: SplitInput, now: Instant)
    requires L.LedgerInv(db, opening)
    requires
      AfterShares(ExecAll(Start(db, opening), earlier).st, userID, txID, debtIDs, input, now, |input.splits|).Some?
    requires SplitUnedited(SplitSystem(db, opening, earlier, later, userID, txID, debtIDs, input, now), userID, txID,
                           debtIDs, input)
    ensures
      var st := SplitSystem(db, opening, earlier, later, userID, txID, debtIDs, input, now).st;
      var cost := Cost(st, txID, debtIDs, input);
      && cost == input.totalMinor - Repaid(st.debts, debtIDs, |input.splits|)
      && (AllRepaid(st.debts, debtIDs, input) ==> cost == input.totalMinor - Total(input.splits, |input.splits|))
  {
    var sys := SplitSystem(db, opening, earlier, later, userID, txID, debtIDs, input, now);
    AllSharesUnedited(db, opening, earlier, later, userID, txID, debtIDs, input, now);
    SharesMoveWallet(db, opening, earlier + SplitSteps(userID, txID, debtIDs, input, now, |input.splits|) + later,
                     debtIDs, input, |input.splits|);
    if AllRepaid(sys.st.debts, debtIDs, input) {
      forall i: nat | i < |input.splits|
        ensures IsShare(sys.st.debts, debtIDs, input, i) && SharePaid(sys.st.debts, debtIDs, i)
      {
        assert ShareUnedited(sys, debtIDs, input, i);
      }
      RepaidInFull(sys.st.debts, debtIDs, input, |input.splits|);
    }
  }
}

/** Whole runs of the ledger: any sequence of transaction calls mixed with wallets being opened and
    closed, shares and reference data changing, and debts pinning transactions. */
module LedgerRuns {
  import opened Common
  import opened Sums
  import opened Ledger

  /** The tables, and the balance each wallet was opened with. */
  datatype Books = Books(db: Database, opening: map<Id, int>)

  datatype Op =
    | Create(userID: Id, id: Id, input: TransactionInput)
    | Update(userID: Id, id: Id, input: TransactionInput)
    | Delete(userID: Id, id: Id)
    | OpenWallet(userID: Id, id: Id, balanceMinor: int)
    | CloseWallet(userID: Id, id: Id)
    | ChangeReferences(shares: map<(Id, Id), Share>, categories: map<Id, Category>, tags: map<Id, Id>)
    | Retain(ids: set<Id>)
  {
    predicate MovesMoney() { Create? || Update? || Delete? }
  }

  /** Wallets that transactions reference are kept by the foreign keys. */
  predicate Referenced(db: Database, walletID: Id) {
    exists id :: id in db.transactions && walletID in db.transactions[id].Touches()
  }

  function Apply(books: Books, op: Op): Books {
    var db := books.db;
    match op
    case Create(userID, id, input) => books.(db := AfterCreate(db, userID, id, input))
    case Update(userID, id, input) => books.(db := AfterUpdate(db, userID, id, input))
    case Delete(userID, id) => books.(db := AfterDelete(db, userID, id))
    case OpenWallet(userID, id, balanceMinor) =>
      if id in db.wallets then books
      else Books(db.(wallets := db.wallets[id := Wallet(userID, balanceMinor)]), books.opening[id := balanceMinor])
    case CloseWallet(userID, id) =>
      if id in db.wallets && db.wallets[id].userID == userID && !Referenced(db, id)
      then Books(db.(wallets := db.wallets - {id}), books.opening - {id})
      else books
    case ChangeReferences(shares, categories, tags) =>
      books.(db := db.(shares := shares, categories := categories, tags := tags))
    case Retain(ids) => books.(db := db.(retained := ids * db.transactions.Keys))
  }

  /** The call commits; otherwise it leaves the tables alone. */
  predicate Succeeds(db: Database, op: Op) {
    match op
    case Create(userID, id, input) => CreateSucceeds(db, userID, id, input)
    case Update(userID, id, input) => UpdateSucceeds(db, userID, id, input)
    case Delete(userID, id) => DeleteSucceeds(db, userID, id)
    case _ => false
  }

  function Run(books: Books, ops: seq<Op>): Books {
    if ops == [] then books else Apply(Run(books, ops[..|ops| - 1]), ops[|ops| - 1])
  }

  lemma UntouchedContribution(db: Database, w: Id)
    requires WellFormed(db) && w !in db.wallets
    ensures Sum(Contributions(db.transactions, w)) == 0
  {
    forall t | t in db.transactions ensures db.transactions[t].Effect(w) == 0 {
      assert Sound(db.transactions[t], db.wallets.Keys);
    }
    SumZero(Contributions(db.transactions, w));
  }

  lemma OneMoreBalanced(db: Database, opening: map<Id, int>, id: Id, wallet: Wallet)
    requires Balanced(db, opening) && id !in db.wallets
    requires Sum(Contributions(db.transactions, id)) == 0
    ensures Balanced(db.(wallets := db.wallets[id := wallet]), opening[id := wallet.balanceMinor])
  {
    var db' := db.(wallets := db.wallets[id := wallet]);
    forall w | w in db'.wallets ensures WalletBalanced(db', opening[id := wallet.balanceMinor], w) {
      assert w != id ==> WalletBalanced(db, opening, w);
    }
  }

  lemma {:induction false} OpenKeepsLedger(books: Books, userID: Id, id: Id, balanceMinor: int)
    requires LedgerInv(books.db, books.opening)
    ensures var next := Apply(books, OpenWallet(userID, id, balanceMinor)); LedgerInv(next.db, next.opening)
  {
    if id !in books.db.wallets {
      UntouchedContribution(books.db, id);
      OneMoreBalanced(books.db, books.opening, id, Wallet(userID, balanceMinor));
    }
  }

  lemma CloseKeepsWellFormed(books: Books, userID: Id, id: Id)
    requires WellFormed(books.db)
    ensures WellFormed(Apply(books, CloseWallet(userID, id)).db)
  {
  }

  lemma {:induction false} CloseKeepsLedger(books: Books, userID: Id, id: Id)
    requires LedgerInv(books.db, books.opening)
    ensures var next := Apply(books, CloseWallet(userID, id)); LedgerInv(next.db, next.opening)
  {
    CloseKeepsWellFormed(books, userID, id);
    var next := Apply(books, CloseWallet(userID, id));
    forall w | w in next.db.wallets ensures WalletBalanced(next.db, next.opening, w) {
      assert WalletBalanced(books.db, books.opening, w);
    }
  }

  lemma {:induction false} ApplyKeepsLedger(books: Books, op: Op)
    requires LedgerInv(books.db, books.opening)
    ensures LedgerInv(Apply(books, op).db, Apply(books, op).opening)
  {
    match op
    case Create(userID, id, input) =>
      CreateKeepsWellFormed(books.db, userID, id, input);
      CreateKeepsBalanced(books.db, books.opening, userID, id, input);
    case Update(userID, id, input) =>
      UpdateKeepsWellFormed(books.db, userID, id, input);
      UpdateKeepsBalanced(books.db, books.opening, userID, id, input);
    case Delete(userID, id) =>
      DeleteKeepsWellFormed(books.db, userID, id);
      DeleteKeepsBalanced(books.db, books.opening, userID, id);
    case OpenWallet(userID, id, balanceMinor) => OpenKeepsLedger(books, userID, id, balanceMinor);
    case CloseWallet(userID, id) => CloseKeepsLedger(books, userID, id);
    case ChangeReferences(_, _, _) =>
    case Retain(_) =>
  }

  /** In every reachable state each stored balance is the opening balance plus the live rows' effects. */
  lemma {:induction false} RunKeepsLedger(books: Books, ops: seq<Op>)
    requires LedgerInv(books.db, books.opening)
    ensures LedgerInv(Run(books, ops).db, Run(books, ops).opening)
  {
    if ops != [] {
      RunKeepsLedger(books, ops[..|ops| - 1]);
      ApplyKeepsLedger(Run(books, ops[..|ops| - 1]), ops[|ops| - 1]);
    }
  }

  // ---------------------------------------------------------------- totals

  function Balances(wallets: map<Id, Wallet>): map<Id, int> {
    map w | w in wallets :: wallets[w].balanceMinor
  }

  function Nets(transactions: map<Id, Transaction>): map<Id, int> {
    map id | id in transactions :: transactions[id].Net()
  }

  function Effects(row: Transaction, opening: map<Id, int>): map<Id, int> {
    map w | w in opening :: row.Effect(w)
  }

  /** Across all wallets, a row moves exactly its net amount: transfers lose only their fee. */
  lemma EffectsAddUpToNet(row: Transaction, opening: map<Id, int>)
    requires Sound(row, opening.Keys)
    ensures Sum(Effects(row, opening)) == row.Net()
  {
    var m := Effects(row, opening);
    if row.kind.Transfer? {
      SumRemove(m, row.walletID);
      SumSingle(m - {row.walletID}, row.toWalletID);
    } else {
      SumSingle(m, row.walletID);
    }
  }

  ghost function Explained(transactions: map<Id, Transaction>, opening: map<Id, int>): map<Id, int> {
    map w | w in opening :: opening[w] + Sum(Contributions(transactions, w))
  }

  lemma {:induction false} ExplainedStep(transactions: map<Id, Transaction>, id: Id, opening: map<Id, int>)
    requires id in transactions
    ensures Sum(Explained(transactions, opening))
         == Sum(Explained(transactions - {id}, opening)) + Sum(Effects(transactions[id], opening))
  {
    forall w | w in opening { RemovedContribution(transactions, id, w); }
    SumPointwise(Explained(transactions - {id}, opening), Effects(transactions[id], opening),
                 Explained(transactions, opening));
  }

  lemma NothingToExplain(transactions: map<Id, Transaction>, opening: map<Id, int>)
    requires |transactions| == 0
    ensures Explained(transactions, opening) == opening && Sum(Nets(transactions)) == 0
  {
  }

  lemma RemovalKeepsSound(transactions: map<Id, Transaction>, id: Id, walletIDs: set<Id>)
    requires AllSound(transactions, walletIDs)
    ensures AllSound(transactions - {id}, walletIDs)
  {
  }

  lemma {:induction false} TotalStep(transactions: map<Id, Transaction>, id: Id, opening: map<Id, int>)
    requires id in transactions && Sound(transactions[id], opening.Keys)
    requires Sum(Explained(transactions - {id}, opening)) == Sum(opening) + Sum(Nets(transactions - {id}))
    ensures Sum(Explained(transactions, opening)) == Sum(opening) + Sum(Nets(transactions))
  {
    ExplainedStep(transactions, id, opening);
    EffectsAddUpToNet(transactions[id], opening);
    NetsStep(transactions, id);
  }

  lemma {:induction false} TotalOfExplained(transactions: map<Id, Transaction>, opening: map<Id, int>)
    requires AllSound(transactions, opening.Keys)
    ensures Sum(Explained(transactions, opening)) == Sum(opening) + Sum(Nets(transactions))
    decreases |transactions|
  {
    if |transactions| == 0 {
      NothingToExplain(transactions, opening);
    } else {
      var id := AnyKey(Nets(transactions));
      RemovalKeepsSound(transactions, id, opening.Keys);
      TotalOfExplained(transactions - {id}, opening);
      TotalStep(transactions, id, opening);
    }
  }

  lemma NetsStep(transactions: map<Id, Transaction>, id: Id)
    requires id in transactions
    ensures Sum(Nets(transactions)) == transactions[id].Net() + Sum(Nets(transactions - {id}))
  {
    SumRemove(Nets(transactions), id);
    assert Nets(transactions) - {id} == Nets(transactions - {id});
  }

  /** The amounts of one kind of transaction, zero for the other rows. */
  function Amounts(transactions: map<Id, Transaction>, kind: TransactionType): map<Id, int> {
    map id | id in transactions :: AmountIf(transactions[id], kind)
  }

  function AmountIf(row: Transaction, kind: TransactionType): int {
    if row.kind == kind then row.amountMinor else 0
  }

  function Fees(transactions: map<Id, Transaction>): map<Id, int> {
    map id | id in transactions :: Fee(transactions[id])
  }

  function Fee(row: Transaction): int {
    if row.kind.Transfer? then row.feeMinor else 0
  }

  function Plus(a: map<Id, int>, b: map<Id, int>): (c: map<Id, int>)
    requires a.Keys == b.Keys
    ensures c.Keys == a.Keys
  {
    map id | id in a :: a[id] + b[id]
  }

  lemma NetsByKind(transactions: map<Id, Transaction>)
    ensures Sum(Nets(transactions))
         == Sum(Amounts(transactions, Income)) - Sum(Amounts(transactions, Expense))
          + Sum(Amounts(transactions, Adjustment)) - Sum(Fees(transactions))
  {
    var incomes, expenses := Amounts(transactions, Income), Amounts(transactions, Expense);
    var adjustments, fees := Amounts(transactions, Adjustment), Fees(transactions);
    SumPointwise(incomes, adjustments, Plus(incomes, adjustments));
    SumPointwise(expenses, fees, Plus(expenses, fees));
    SumPointwise(Nets(transactions), Plus(expenses, fees), Plus(incomes, adjustments));
  }

  lemma {:induction false} BalancesAreExplained(db: Database, opening: map<Id, int>)
    requires Balanced(db, opening)
    ensures Balances(db.wallets) == Explained(db.transactions, opening)
  {
    forall w | w in opening ensures Balances(db.wallets)[w] == Explained(db.transactions, opening)[w] {
      assert WalletBalanced(db, opening, w);
    }
  }

  /** The money in all wallets: openings plus incomes less expenses plus adjustments less transfer
      fees. The transferred amounts themselves cancel. */
  lemma {:induction false} LedgerConservesMoney(db: Database, opening: map<Id, int>)
    requires LedgerInv(db, opening)
    ensures Sum(Balances(db.wallets))
         == Sum(opening) + Sum(Amounts(db.transactions, Income)) - Sum(Amounts(db.transactions, Expense))
          + Sum(Amounts(db.transactions, Adjustment)) - Sum(Fees(db.transactions))
  {
    TotalOfExplained(db.transactions, opening);
    NetsByKind(db.transactions);
    BalancesAreExplained(db, opening);
  }

  lemma {:induction false} RunConservesMoney(books: Books, ops: seq<Op>)
    requires LedgerInv(books.db, books.opening)
    ensures
      var Books(db, opening) := Run(books, ops);
      Sum(Balances(db.wallets))
      == Sum(opening) + Sum(Amounts(db.transactions, Income)) - Sum(Amounts(db.transactions, Expense))
       + Sum(Amounts(db.transactions, Adjustment)) - Sum(Fees(db.transactions))
  {
    RunKeepsLedger(books, ops);
    LedgerConservesMoney(Run(books, ops).db, Run(books, ops).opening);
  }

  // ---------------------------------------------------------------- who moves what

  /** A call moves a wallet's balance only on behalf of its owner or a joined member, and the only
      rows it changes or removes are the caller's own. */
  lemma OnlyRecordersMoveMoney(books: Books, op: Op, w: Id, id: Id)
    requires op.MovesMoney()
    ensures
      var next := Apply(books, op);
      && next.db.wallets.Keys == books.db.wallets.Keys
      && (w in books.db.wallets && next.db.wallets[w].balanceMinor != books.db.wallets[w].balanceMinor ==>
            CanRecord(books.db, op.userID, w))
      && (&& id in books.db.transactions
          && (id in next.db.transactions ==> next.db.transactions[id] != books.db.transactions[id]) ==>
            books.db.transactions[id].userID == op.userID)
      && (id in books.db.transactions && id in next.db.transactions ==>
            next.db.transactions[id].userID == books.db.transactions[id].userID)
      && (id in next.db.transactions && id !in books.db.transactions ==> next.db.transactions[id].userID == op.userID)
  {
    if op.Create? || op.Update? {
      if CanPost(books.db, op.userID, op.input) {
        PostedRowIsSound(books.db, op.userID, op.input);
      }
    }
  }

  // ---------------------------------------------------------------- what one call undoes

  lemma PostingKeepsAccess(db: Database, userID: Id, id: Id, before: Option<Transaction>, row: Transaction)
    ensures
      var mid := db.(wallets := Rebalanced(db.wallets, before, Some(row)), transactions := db.transactions[id := row]);
      && (forall u, w :: CanRecord(mid, u, w) <==> CanRecord(db, u, w))
      && (forall u, input :: RefsExist(mid, u, input) <==> RefsExist(db, u, input))
  {
  }

  lemma RebalanceUndone(wallets: map<Id, Wallet>, before: Option<Transaction>, row: Transaction)
    ensures Rebalanced(Rebalanced(wallets, before, Some(row)), Some(row), before) == wallets
  {
  }

  /** Deleting what was just created restores every table. */
  lemma DeleteUndoesCreate(db: Database, userID: Id, id: Id, input: TransactionInput)
    requires WellFormed(db)
    requires CreateSucceeds(db, userID, id, input)
    ensures AfterDelete(AfterCreate(db, userID, id, input), userID, id) == db
  {
    var mid, row := AfterCreate(db, userID, id, input), RowFor(userID, input);
    PostedRowIsSound(db, userID, input);
    PostingKeepsAccess(db, userID, id, None, row);
    assert DeleteSucceeds(mid, userID, id);
    assert mid.transactions - {id} == db.transactions;
    RebalanceUndone(db.wallets, None, row);
  }

  /** Writing a row and then writing its old contents back restores every table, provided the old
      contents could still be posted today. */
  lemma {:induction false} UpdateUndoesUpdate(db: Database, userID: Id, id: Id, input: TransactionInput)
    requires WellFormed(db)
    requires UpdateSucceeds(db, userID, id, input)
    requires CanPost(db, userID, db.transactions[id].Input())
    requires Distinct(db.transactions[id].tagIDs) == db.transactions[id].tagIDs
    ensures AfterUpdate(AfterUpdate(db, userID, id, input), userID, id, db.transactions[id].Input()) == db
  {
    var mid, before, row := AfterUpdate(db, userID, id, input), db.transactions[id], RowFor(userID, input);
    PostedRowIsSound(db, userID, input);
    PostingKeepsAccess(db, userID, id, Some(before), row);
    assert UpdateSucceeds(mid, userID, id, before.Input());
    assert RowFor(userID, before.Input()) == before;
    assert mid.transactions[id := before] == db.transactions;
    RebalanceUndone(db.wallets, Some(before), row);
  }
}

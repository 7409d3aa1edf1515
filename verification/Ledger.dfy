/** The wallet ledger as tables: what a transaction means for wallet balances, and what each
    committed call does to the tables. The step-by-step code that reaches these outcomes is in
    TransactionRepository.dfy. */
module Ledger {
  import opened Common
  import opened Sums

  datatype TransactionType = Income | Expense | Transfer | Adjustment | Unknown(name: string)

  datatype TransactionInput = TransactionInput(
    kind: TransactionType,
    walletID: Id,
    toWalletID: Id,
    categoryID: Id,
    amountMinor: int,
    feeMinor: int,
    tagIDs: seq<Id>,
    transactionAt: Instant,
    note: string)

  datatype BalanceDelta = BalanceDelta(walletID: Id, amountMinor: int)

  datatype InputError =
    | WalletRequired | AmountZero | InstantRequired | AmountNotPositive | CategoryRequired
    | FeeNegative | DestinationRequired | WalletsEqual | InvalidType

  /** One row of the transactions table, with its transaction_tags rows. */
  datatype Transaction = Transaction(
    userID: Id,
    kind: TransactionType,
    walletID: Id,
    toWalletID: Id,
    categoryID: Id,
    amountMinor: int,
    feeMinor: int,
    tagIDs: seq<Id>,
    transactionAt: Instant,
    note: string)
  {
    /** A stored row seen as the input that would write it again. */
    function Input(): (input: TransactionInput)
    {
      TransactionInput(kind, walletID, toWalletID, categoryID, amountMinor, feeMinor, tagIDs, transactionAt, note)
    }

    /** The wallets whose balance the row moves. */
    function Touches(): set<Id> {
      if kind.Transfer? then {walletID, toWalletID} else {walletID}
    }

    /** What the row adds to the balance of wallet w. */
    function Effect(w: Id): int {
      (if w != walletID then 0 else
         match kind
         case Income => amountMinor
         case Expense => -amountMinor
         case Transfer => -amountMinor - feeMinor
         case Adjustment => amountMinor
         case Unknown(_) => 0)
      + (if kind.Transfer? && w == toWalletID then amountMinor else 0)
    }

    /** What the row adds to the money in all wallets together. */
    function Net(): int {
      match kind
      case Income => amountMinor
      case Expense => -amountMinor
      case Transfer => -feeMinor
      case Adjustment => amountMinor
      case Unknown(_) => 0
    }
  }

  datatype Role = Member | Viewer
  datatype ShareStatus = Pending | Joined | Rejected
  datatype Share = Share(status: ShareStatus, role: Role)
  datatype CategoryKind = IncomeCategory | ExpenseCategory

  datatype Wallet = Wallet(userID: Id, balanceMinor: int)
  datatype Category = Category(userID: Id, kind: CategoryKind)

  /** The tables the ledger reads and writes. `retained` holds the transactions that debts and
      debt payments reference, which the database refuses to delete. */
  datatype Database = Database(
    wallets: map<Id, Wallet>,
    shares: map<(Id, Id), Share>,
    categories: map<Id, Category>,
    tags: map<Id, Id>,
    transactions: map<Id, Transaction>,
    retained: set<Id>)

  // ---------------------------------------------------------------- deltas

  function BalanceDeltas(input: TransactionInput): (r: Result<seq<BalanceDelta>, InputError>)
    ensures r.Ok? <==> ValidInput(input)
  {
    if input.walletID == NO_ID then Err(WalletRequired)
    else if input.amountMinor == 0 then Err(AmountZero)
    else if input.transactionAt == ZERO_TIME then Err(InstantRequired)
    else
      match input.kind
      case Income =>
        if input.amountMinor < 0 then Err(AmountNotPositive)
        else if input.categoryID == NO_ID then Err(CategoryRequired)
        else Ok([BalanceDelta(input.walletID, input.amountMinor)])
      case Expense =>
        if input.amountMinor < 0 then Err(AmountNotPositive)
        else if input.categoryID == NO_ID then Err(CategoryRequired)
        else Ok([BalanceDelta(input.walletID, -input.amountMinor)])
      case Transfer =>
        if input.amountMinor < 0 then Err(AmountNotPositive)
        else if input.feeMinor < 0 then Err(FeeNegative)
        else if input.toWalletID == NO_ID then Err(DestinationRequired)
        else if input.walletID == input.toWalletID then Err(WalletsEqual)
        else Ok([BalanceDelta(input.walletID, -(input.amountMinor + input.feeMinor)),
                 BalanceDelta(input.toWalletID, input.amountMinor)])
      case Adjustment => Ok([BalanceDelta(input.walletID, input.amountMinor)])
      case Unknown(_) => Err(InvalidType)
  }

  predicate ValidInput(input: TransactionInput) {
    && input.walletID != NO_ID
    && input.amountMinor != 0
    && input.transactionAt != ZERO_TIME
    && !input.kind.Unknown?
    && (input.kind.Income? || input.kind.Expense? ==> input.amountMinor > 0 && input.categoryID != NO_ID)
    && (input.kind.Transfer? ==>
          && input.amountMinor > 0 && input.feeMinor >= 0
          && input.toWalletID != NO_ID && input.toWalletID != input.walletID)
  }

  function Deltas(input: TransactionInput): (ds: seq<BalanceDelta>)
    requires ValidInput(input)
  {
    BalanceDeltas(input).value
  }

  /** What a list of deltas adds to wallet w, counting repeated wallets. */
  function DeltaSum(ds: seq<BalanceDelta>, w: Id): int {
    if ds == [] then 0
    else DeltaSum(ds[..|ds| - 1], w) + (if ds[|ds| - 1].walletID == w then ds[|ds| - 1].amountMinor else 0)
  }

  lemma DeltaSumOneMore(ds: seq<BalanceDelta>, d: BalanceDelta, w: Id)
    ensures DeltaSum(ds + [d], w) == DeltaSum(ds, w) + (if d.walletID == w then d.amountMinor else 0)
  {
  }

  lemma {:induction false} DeltaSumAppend(a: seq<BalanceDelta>, b: seq<BalanceDelta>, w: Id)
    ensures DeltaSum(a + b, w) == DeltaSum(a, w) + DeltaSum(b, w)
  {
    if b == [] {
      assert a + b == a;
    } else {
      DeltaSumAppend(a, b[..|b| - 1], w);
      assert (a + b)[..|a + b| - 1] == a + b[..|b| - 1];
    }
  }

  lemma {:induction false} DeltaSumUntouched(ds: seq<BalanceDelta>, w: Id)
    requires forall d :: d in ds ==> d.walletID != w
    ensures DeltaSum(ds, w) == 0
  {
    if ds != [] {
      DeltaSumUntouched(ds[..|ds| - 1], w);
    }
  }

  function Reversed(ds: seq<BalanceDelta>): (r: seq<BalanceDelta>)
    ensures |r| == |ds|
    ensures forall k :: 0 <= k < |r| ==> r[k] == BalanceDelta(ds[k].walletID, -ds[k].amountMinor)
  {
    seq(|ds|, i requires 0 <= i < |ds| => BalanceDelta(ds[i].walletID, -ds[i].amountMinor))
  }

  /** Applying a list of deltas and then its reversal leaves every wallet where it was. */
  lemma {:induction false} ReversalCancels(ds: seq<BalanceDelta>, w: Id)
    ensures DeltaSum(Reversed(ds), w) == -DeltaSum(ds, w)
  {
    if ds != [] {
      ReversalCancels(ds[..|ds| - 1], w);
      assert Reversed(ds)[..|ds| - 1] == Reversed(ds[..|ds| - 1]);
    }
  }

  /** The deltas computed by the code are the row's effect, wallet by wallet, and touch nothing else. */
  lemma DeltasAreEffect(row: Transaction, w: Id)
    requires ValidInput(row.Input())
    ensures DeltaSum(Deltas(row.Input()), w) == row.Effect(w)
    ensures (exists d :: d in Deltas(row.Input()) && d.walletID == w) <==> w in row.Touches()
  {
    var ds := Deltas(row.Input());
    if row.kind.Transfer? {
      assert ds == [ds[0]] + [ds[1]] && ds[0] in ds && ds[1] in ds;
      DeltaSumAppend([ds[0]], [ds[1]], w);
      assert [ds[0]][..0] == [] && [ds[1]][..0] == [];
    } else {
      assert ds[..0] == [] && ds[0] in ds;
    }
  }

  // ---------------------------------------------------------------- access and references

  /** Only the owner and joined members with the writing role may move a wallet's balance. */
  predicate CanRecord(db: Database, userID: Id, walletID: Id) {
    && walletID in db.wallets
    && (|| db.wallets[walletID].userID == userID
        || ((walletID, userID) in db.shares && db.shares[(walletID, userID)] == Share(Joined, Member)))
  }

  predicate OwnsCategory(db: Database, userID: Id, categoryID: Id, kind: TransactionType) {
    && categoryID in db.categories
    && db.categories[categoryID] == Category(userID, if kind.Income? then IncomeCategory else ExpenseCategory)
  }

  predicate OwnsTag(db: Database, userID: Id, tagID: Id) {
    tagID in db.tags && db.tags[tagID] == userID
  }

  predicate RefsExist(db: Database, userID: Id, input: TransactionInput) {
    && CanRecord(db, userID, input.walletID)
    && (input.toWalletID != NO_ID ==> CanRecord(db, userID, input.toWalletID))
    && (input.categoryID != NO_ID ==> OwnsCategory(db, userID, input.categoryID, input.kind))
    && forall tagID :: tagID in input.tagIDs ==> OwnsTag(db, userID, tagID)
  }

  /** The CHECK constraints of the transactions table. */
  predicate RowAllowed(input: TransactionInput) {
    && input.amountMinor != 0
    && input.feeMinor >= 0
    && match input.kind
       case Income => input.categoryID != NO_ID && input.toWalletID == NO_ID
       case Expense => input.categoryID != NO_ID && input.toWalletID == NO_ID
       case Transfer => input.categoryID == NO_ID && input.toWalletID != NO_ID && input.toWalletID != input.walletID
       case Adjustment => input.categoryID == NO_ID && input.toWalletID == NO_ID
       case Unknown(_) => false
  }

  predicate CanPost(db: Database, userID: Id, input: TransactionInput) {
    RefsExist(db, userID, input) && ValidInput(input) && RowAllowed(input)
  }

  /** The reversed deltas can be applied exactly when the user may write every wallet of the row. */
  lemma DeltasAreReversible(db: Database, userID: Id, row: Transaction)
    requires ValidInput(row.Input())
    ensures (forall d :: d in Reversed(Deltas(row.Input())) ==> CanRecord(db, userID, d.walletID))
       <==> (forall w :: w in row.Touches() ==> CanRecord(db, userID, w))
  {
    var ds, back := Deltas(row.Input()), Reversed(Deltas(row.Input()));
    forall w | w in row.Touches() ensures exists d :: d in back && d.walletID == w {
      DeltasAreEffect(row, w);
      var k :| 0 <= k < |ds| && ds[k].walletID == w;
      assert back[k] in back && back[k].walletID == w;
    }
    forall d | d in back ensures d.walletID in row.Touches() {
      var k :| 0 <= k < |back| && back[k] == d;
      DeltasAreEffect(row, d.walletID);
      assert ds[k] in ds;
    }
  }

  /** Access depends on owners and shares, never on balances. */
  lemma AccessIgnoresBalances(db: Database, wallets: map<Id, Wallet>, userID: Id, w: Id)
    requires wallets.Keys == db.wallets.Keys
    requires forall x :: x in wallets ==> wallets[x].userID == db.wallets[x].userID
    ensures CanRecord(db.(wallets := wallets), userID, w) <==> CanRecord(db, userID, w)
  {
  }

  lemma RefsIgnoreBalances(db: Database, wallets: map<Id, Wallet>, userID: Id, input: TransactionInput)
    requires wallets.Keys == db.wallets.Keys
    requires forall x :: x in wallets ==> wallets[x].userID == db.wallets[x].userID
    ensures RefsExist(db.(wallets := wallets), userID, input) <==> RefsExist(db, userID, input)
  {
  }

  /** Once the references are checked, no delta of the row can meet a wallet the user may not write. */
  lemma CheckedRefsCoverDeltas(db: Database, userID: Id, input: TransactionInput)
    requires RefsExist(db, userID, input) && ValidInput(input)
    ensures forall d :: d in Deltas(input) ==> CanRecord(db, userID, d.walletID)
  {
  }

  // ---------------------------------------------------------------- tags

  /** The distinct tags in order of first occurrence. */
  function Distinct(tagIDs: seq<Id>): (r: seq<Id>)
    ensures forall t :: t in r <==> t in tagIDs
    ensures forall i, j :: 0 <= i < j < |r| ==> r[i] != r[j]
  {
    if tagIDs == [] then []
    else
      var front := Distinct(tagIDs[..|tagIDs| - 1]);
      var last := tagIDs[|tagIDs| - 1];
      if last in front then front else front + [last]
  }

  function RowFor(userID: Id, input: TransactionInput): Transaction {
    Transaction(userID, input.kind, input.walletID, input.toWalletID, input.categoryID, input.amountMinor,
                input.feeMinor, Distinct(input.tagIDs), input.transactionAt, input.note)
  }

  // ---------------------------------------------------------------- outcomes of committed calls

  function EffectOf(row: Option<Transaction>, w: Id): int {
    if row.Some? then row.value.Effect(w) else 0
  }

  /** The wallets once the effect of one row is taken back and that of another put in place. */
  function Rebalanced(wallets: map<Id, Wallet>, before: Option<Transaction>, after: Option<Transaction>)
    : (r: map<Id, Wallet>)
    ensures r.Keys == wallets.Keys
  {
    map w | w in wallets ::
      wallets[w].(balanceMinor := wallets[w].balanceMinor - EffectOf(before, w) + EffectOf(after, w))
  }

  predicate CreateSucceeds(db: Database, userID: Id, id: Id, input: TransactionInput) {
    CanPost(db, userID, input) && id !in db.transactions
  }

  function AfterCreate(db: Database, userID: Id, id: Id, input: TransactionInput): Database {
    if CreateSucceeds(db, userID, id, input) then
      var row := RowFor(userID, input);
      db.(wallets := Rebalanced(db.wallets, None, Some(row)), transactions := db.transactions[id := row])
    else db
  }

  /** The stored row can be taken back: it is the caller's own and its wallets are still writable. */
  predicate CanReverse(db: Database, userID: Id, id: Id) {
    && id in db.transactions
    && db.transactions[id].userID == userID
    && ValidInput(db.transactions[id].Input())
    && forall w :: w in db.transactions[id].Touches() ==> CanRecord(db, userID, w)
  }

  predicate UpdateSucceeds(db: Database, userID: Id, id: Id, input: TransactionInput) {
    CanReverse(db, userID, id) && CanPost(db, userID, input)
  }

  function AfterUpdate(db: Database, userID: Id, id: Id, input: TransactionInput): Database {
    if UpdateSucceeds(db, userID, id, input) then
      var before, row := db.transactions[id], RowFor(userID, input);
      db.(wallets := Rebalanced(db.wallets, Some(before), Some(row)), transactions := db.transactions[id := row])
    else db
  }

  predicate DeleteSucceeds(db: Database, userID: Id, id: Id) {
    CanReverse(db, userID, id) && id !in db.retained
  }

  function AfterDelete(db: Database, userID: Id, id: Id): Database {
    if DeleteSucceeds(db, userID, id) then
      var before := db.transactions[id];
      db.(wallets := Rebalanced(db.wallets, Some(before), None), transactions := db.transactions - {id})
    else db
  }

  // ---------------------------------------------------------------- the ledger invariant

  /** A stored row came through validation and its wallets exist. */
  predicate Sound(row: Transaction, walletIDs: set<Id>) {
    ValidInput(row.Input()) && RowAllowed(row.Input()) && row.Touches() <= walletIDs
  }

  predicate AllSound(transactions: map<Id, Transaction>, walletIDs: set<Id>) {
    forall id :: id in transactions ==> Sound(transactions[id], walletIDs)
  }

  predicate WellFormed(db: Database) {
    && AllSound(db.transactions, db.wallets.Keys)
    && db.retained <= db.transactions.Keys
  }

  function Contributions(transactions: map<Id, Transaction>, w: Id): (m: map<Id, int>)
    ensures m.Keys == transactions.Keys
  {
    map id | id in transactions :: transactions[id].Effect(w)
  }

  /** A stored balance is its wallet's opening balance plus what the live rows add to it. */
  ghost predicate WalletBalanced(db: Database, opening: map<Id, int>, w: Id)
    requires w in db.wallets && w in opening
  {
    db.wallets[w].balanceMinor == opening[w] + Sum(Contributions(db.transactions, w))
  }

  ghost predicate Balanced(db: Database, opening: map<Id, int>) {
    && opening.Keys == db.wallets.Keys
    && forall w :: w in db.wallets ==> WalletBalanced(db, opening, w)
  }

  ghost predicate LedgerInv(db: Database, opening: map<Id, int>) {
    WellFormed(db) && Balanced(db, opening)
  }

  lemma InsertedContribution(transactions: map<Id, Transaction>, id: Id, row: Transaction, w: Id)
    requires id !in transactions
    ensures Sum(Contributions(transactions[id := row], w)) == Sum(Contributions(transactions, w)) + row.Effect(w)
  {
    SumInsert(Contributions(transactions, w), id, row.Effect(w));
    assert Contributions(transactions[id := row], w) == Contributions(transactions, w)[id := row.Effect(w)];
  }

  lemma ReplacedContribution(transactions: map<Id, Transaction>, id: Id, row: Transaction, w: Id)
    requires id in transactions
    ensures Sum(Contributions(transactions[id := row], w))
         == Sum(Contributions(transactions, w)) - transactions[id].Effect(w) + row.Effect(w)
  {
    SumUpdate(Contributions(transactions, w), id, row.Effect(w));
    assert Contributions(transactions[id := row], w) == Contributions(transactions, w)[id := row.Effect(w)];
  }

  lemma RemovedContribution(transactions: map<Id, Transaction>, id: Id, w: Id)
    requires id in transactions
    ensures Sum(Contributions(transactions - {id}, w))
         == Sum(Contributions(transactions, w)) - transactions[id].Effect(w)
  {
    SumRemove(Contributions(transactions, w), id);
    assert Contributions(transactions - {id}, w) == Contributions(transactions, w) - {id};
  }

  /** Rebalancing keeps the books when the live rows change by the same two effects. */
  lemma RebalanceKeepsBalanced(db: Database, db': Database, opening: map<Id, int>,
                               before: Option<Transaction>, after: Option<Transaction>)
    requires Balanced(db, opening)
    requires db'.wallets == Rebalanced(db.wallets, before, after)
    requires forall w :: w in db.wallets ==>
               Sum(Contributions(db'.transactions, w))
               == Sum(Contributions(db.transactions, w)) - EffectOf(before, w) + EffectOf(after, w)
    ensures Balanced(db', opening)
  {
  }

  /** A row written from a validated input is sound, and the writer may move each wallet it touches. */
  lemma PostedRowIsSound(db: Database, userID: Id, input: TransactionInput)
    requires CanPost(db, userID, input)
    ensures Sound(RowFor(userID, input), db.wallets.Keys)
    ensures forall w :: w in RowFor(userID, input).Touches() ==> CanRecord(db, userID, w)
  {
  }

  lemma CreateKeepsWellFormed(db: Database, userID: Id, id: Id, input: TransactionInput)
    requires WellFormed(db)
    ensures WellFormed(AfterCreate(db, userID, id, input))
  {
  }

  lemma CreateKeepsBalanced(db: Database, opening: map<Id, int>, userID: Id, id: Id, input: TransactionInput)
    requires Balanced(db, opening)
    ensures Balanced(AfterCreate(db, userID, id, input), opening)
  {
    if CreateSucceeds(db, userID, id, input) {
      var row := RowFor(userID, input);
      forall w | w in db.wallets {
        InsertedContribution(db.transactions, id, row, w);
      }
      RebalanceKeepsBalanced(db, AfterCreate(db, userID, id, input), opening, None, Some(row));
    }
  }

  lemma UpdateKeepsWellFormed(db: Database, userID: Id, id: Id, input: TransactionInput)
    requires WellFormed(db)
    ensures WellFormed(AfterUpdate(db, userID, id, input))
  {
    if UpdateSucceeds(db, userID, id, input) {
      PostedRowIsSound(db, userID, input);
    }
  }

  lemma {:induction false} UpdateKeepsBalanced(db: Database, opening: map<Id, int>, userID: Id, id: Id,
      input: TransactionInput)
    requires Balanced(db, opening)
    ensures Balanced(AfterUpdate(db, userID, id, input), opening)
  {
    if UpdateSucceeds(db, userID, id, input) {
      var row := RowFor(userID, input);
      forall w | w in db.wallets {
        ReplacedContribution(db.transactions, id, row, w);
      }
      RebalanceKeepsBalanced(db, AfterUpdate(db, userID, id, input), opening, Some(db.transactions[id]), Some(row));
    }
  }

  lemma DeleteKeepsWellFormed(db: Database, userID: Id, id: Id)
    requires WellFormed(db)
    ensures WellFormed(AfterDelete(db, userID, id))
  {
  }

  lemma {:induction false} DeleteKeepsBalanced(db: Database, opening: map<Id, int>, userID: Id, id: Id)
    requires Balanced(db, opening)
    ensures Balanced(AfterDelete(db, userID, id), opening)
  {
    if DeleteSucceeds(db, userID, id) {
      forall w | w in db.wallets {
        RemovedContribution(db.transactions, id, w);
      }
      RebalanceKeepsBalanced(db, AfterDelete(db, userID, id), opening, Some(db.transactions[id]), None);
    }
  }
}

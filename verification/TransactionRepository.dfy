/** The ledger's write path, statement by statement: reference checks, balance deltas applied one
    wallet at a time, the row written, and everything put back when a statement fails. */
module TransactionRepository {
  import opened Common
  import opened Ledger

  datatype LedgerError = NotFound | Forbidden | Invalid(reason: InputError) | ConstraintViolated

  /** The wallets once a list of deltas has been applied. */
  function Moved(wallets: map<Id, Wallet>, ds: seq<BalanceDelta>): (r: map<Id, Wallet>)
    ensures r.Keys == wallets.Keys
  {
    map w | w in wallets :: wallets[w].(balanceMinor := wallets[w].balanceMinor + DeltaSum(ds, w))
  }

  lemma MovedStep(wallets: map<Id, Wallet>, ds: seq<BalanceDelta>, d: BalanceDelta)
    requires d.walletID in wallets
    ensures
      var before := Moved(wallets, ds);
      Moved(wallets, ds + [d])
      == before[d.walletID := before[d.walletID].(balanceMinor := before[d.walletID].balanceMinor + d.amountMinor)]
  {
  }

  lemma MovedNothing(wallets: map<Id, Wallet>)
    ensures Moved(wallets, []) == wallets
  {
  }

  lemma MovedBySums(wallets: map<Id, Wallet>, ds: seq<BalanceDelta>, before: Option<Transaction>,
      after: Option<Transaction>)
    requires forall w :: w in wallets ==> DeltaSum(ds, w) == EffectOf(after, w) - EffectOf(before, w)
    ensures Moved(wallets, ds) == Rebalanced(wallets, before, after)
  {
    forall w | w in wallets ensures Moved(wallets, ds)[w] == Rebalanced(wallets, before, after)[w] {
    }
  }

  /** Applying a row's deltas puts its effect in place; applying their reversal takes it back. */
  lemma MovedByRow(wallets: map<Id, Wallet>, row: Transaction)
    requires ValidInput(row.Input())
    ensures Moved(wallets, Deltas(row.Input())) == Rebalanced(wallets, None, Some(row))
    ensures Moved(wallets, Reversed(Deltas(row.Input()))) == Rebalanced(wallets, Some(row), None)
  {
    var ds := Deltas(row.Input());
    forall w
      ensures DeltaSum(ds, w) == row.Effect(w) && DeltaSum(Reversed(ds), w) == -row.Effect(w)
    {
      DeltasAreEffect(row, w);
      ReversalCancels(ds, w);
    }
    MovedBySums(wallets, ds, None, Some(row));
    MovedBySums(wallets, Reversed(ds), Some(row), None);
  }

  lemma DeltasOfRow(userID: Id, input: TransactionInput)
    requires ValidInput(input)
    ensures ValidInput(RowFor(userID, input).Input()) && Deltas(RowFor(userID, input).Input()) == Deltas(input)
  {
  }

  lemma {:induction false} MovedByInput(wallets: map<Id, Wallet>, userID: Id, input: TransactionInput)
    requires ValidInput(input)
    ensures Moved(wallets, Deltas(input)) == Rebalanced(wallets, None, Some(RowFor(userID, input)))
  {
    DeltasOfRow(userID, input);
    MovedByRow(wallets, RowFor(userID, input));
  }

  lemma RebalancedTwice(wallets: map<Id, Wallet>, before: Transaction, after: Transaction)
    ensures Rebalanced(Rebalanced(wallets, Some(before), None), None, Some(after))
         == Rebalanced(wallets, Some(before), Some(after))
  {
  }

  /** Why a row cannot be posted: a missing reference before an invalid input before a constraint. */
  function PostError(db: Database, userID: Id, input: TransactionInput): LedgerError {
    if !RefsExist(db, userID, input) then NotFound
    else if !ValidInput(input) then Invalid(BalanceDeltas(input).error)
    else ConstraintViolated
  }

  class TransactionRepository {
    var db: Database

    constructor (tables: Database)
      ensures db == tables
    {
      db := tables;
    }

    method UniqueTagIDs(tagIDs: seq<Id>) returns (uniqueIDs: seq<Id>)
      ensures uniqueIDs == Distinct(tagIDs)
    {
      uniqueIDs := [];
      var seen := {};
      for i := 0 to |tagIDs|
        invariant uniqueIDs == Distinct(tagIDs[..i])
        invariant seen == set t | t in uniqueIDs
      {
        assert tagIDs[..i + 1][..i] == tagIDs[..i];
        if tagIDs[i] in seen {
          continue;
        }
        seen := seen + {tagIDs[i]};
        uniqueIDs := uniqueIDs + [tagIDs[i]];
      }
      assert tagIDs[..|tagIDs|] == tagIDs;
    }

    method EnsureTags(userID: Id, tagIDs: seq<Id>) returns (ok: bool)
      ensures ok <==> forall t :: t in tagIDs ==> OwnsTag(db, userID, t)
    {
      var uniqueIDs := UniqueTagIDs(tagIDs);
      var owned := set t | t in uniqueIDs && OwnsTag(db, userID, t);
      DistinctCount(uniqueIDs, owned);
      return |owned| == |uniqueIDs|;
    }

    method EnsureRefs(userID: Id, input: TransactionInput) returns (ok: bool)
      ensures ok <==> RefsExist(db, userID, input)
    {
      if !CanRecord(db, userID, input.walletID) {
        return false;
      }
      if input.toWalletID != NO_ID && !CanRecord(db, userID, input.toWalletID) {
        return false;
      }
      if input.categoryID != NO_ID && !OwnsCategory(db, userID, input.categoryID, input.kind) {
        return false;
      }
      ok := EnsureTags(userID, input.tagIDs);
    }

    /** One conditional UPDATE per delta; the first wallet the user may not write stops the loop. */
    method ApplyDeltas(userID: Id, deltas: seq<BalanceDelta>) returns (ok: bool)
      modifies this
      ensures ok <==> forall d :: d in deltas ==> CanRecord(old(db), userID, d.walletID)
      ensures ok ==> db == old(db).(wallets := Moved(old(db.wallets), deltas))
    {
      MovedNothing(db.wallets);
      for i := 0 to |deltas|
        invariant db == old(db).(wallets := Moved(old(db.wallets), deltas[..i]))
        invariant forall k :: 0 <= k < i ==> CanRecord(old(db), userID, deltas[k].walletID)
      {
        var delta := deltas[i];
        AccessIgnoresBalances(old(db), db.wallets, userID, delta.walletID);
        if !CanRecord(db, userID, delta.walletID) {
          assert delta in deltas;
          return false;
        }
        MovedStep(old(db.wallets), deltas[..i], delta);
        assert deltas[..i] + [delta] == deltas[..i + 1];
        var wallet := db.wallets[delta.walletID];
        db := db.(wallets := db.wallets[delta.walletID :=
          wallet.(balanceMinor := wallet.balanceMinor + delta.amountMinor)]);
      }
      assert deltas[..|deltas|] == deltas;
      return true;
    }

    method ReverseDeltas(deltas: seq<BalanceDelta>) returns (reversed: seq<BalanceDelta>)
      ensures reversed == Reversed(deltas)
    {
      reversed := [];
      for i := 0 to |deltas|
        invariant reversed == Reversed(deltas[..i])
      {
        reversed := reversed + [BalanceDelta(deltas[i].walletID, -deltas[i].amountMinor)];
        assert deltas[..i + 1] == deltas[..i] + [deltas[i]];
      }
      assert deltas[..|deltas|] == deltas;
    }

    /** Locks and reads the stored row, checks its creator and takes its deltas back. */
    method RevertRow(userID: Id, id: Id) returns (r: Result<Transaction, LedgerError>)
      modifies this
      ensures r.Ok? <==> CanReverse(old(db), userID, id)
      ensures r.Ok? ==>
        && r.value == old(db).transactions[id]
        && db == old(db).(wallets := Rebalanced(old(db.wallets), Some(r.value), None))
      ensures id !in old(db).transactions ==> r == Err(NotFound)
      ensures r == Err(Forbidden) <==> id in old(db).transactions && old(db).transactions[id].userID != userID
    {
      if id !in db.transactions {
        return Err(NotFound);
      }
      var before := db.transactions[id];
      if before.userID != userID {
        return Err(Forbidden);
      }
      var oldDeltas := BalanceDeltas(before.Input());
      if oldDeltas.Err? {
        return Err(Invalid(oldDeltas.error));
      }
      var reversed := ReverseDeltas(oldDeltas.value);
      DeltasAreReversible(db, userID, before);
      MovedByRow(db.wallets, before);
      var reverted := ApplyDeltas(userID, reversed);
      if !reverted {
        return Err(NotFound);
      }
      return Ok(before);
    }

    /** Checks references and input and applies the deltas of a row about to be written. */
    method PostRow(userID: Id, input: TransactionInput) returns (r: Result<Transaction, LedgerError>)
      modifies this
      ensures r.Ok? <==> CanPost(old(db), userID, input)
      ensures r.Ok? ==>
        && r.value == RowFor(userID, input)
        && db == old(db).(wallets := Rebalanced(old(db.wallets), None, Some(r.value)))
      ensures r.Err? ==> r.error == PostError(old(db), userID, input)
    {
      var refs := EnsureRefs(userID, input);
      if !refs {
        return Err(NotFound);
      }
      var deltas := BalanceDeltas(input);
      if deltas.Err? {
        return Err(Invalid(deltas.error));
      }
      CheckedRefsCoverDeltas(db, userID, input);
      MovedByInput(db.wallets, userID, input);
      var applied := ApplyDeltas(userID, deltas.value);
      if !applied {
        return Err(NotFound);
      }
      if !RowAllowed(input) {
        return Err(ConstraintViolated);
      }
      var tagIDs := UniqueTagIDs(input.tagIDs);
      var row := Transaction(userID, input.kind, input.walletID, input.toWalletID, input.categoryID,
                             input.amountMinor, input.feeMinor, tagIDs, input.transactionAt, input.note);
      assert row == RowFor(userID, input);
      return Ok(row);
    }

    /** Writes within the caller's database transaction; on an error the caller rolls back. */
    method CreateInTx(userID: Id, newID: Id, input: TransactionInput) returns (r: Result<Transaction, LedgerError>)
      modifies this
      ensures r.Ok? <==> CreateSucceeds(old(db), userID, newID, input)
      ensures r.Ok? ==> db == AfterCreate(old(db), userID, newID, input) && r.value == RowFor(userID, input)
      ensures r.Err? ==> r.error == PostError(old(db), userID, input)
    {
      r := PostRow(userID, input);
      if r.Err? {
        return;
      }
      if newID in db.transactions {
        return Err(ConstraintViolated);
      }
      db := db.(transactions := db.transactions[newID := r.value]);
    }

    method Create(userID: Id, newID: Id, input: TransactionInput) returns (r: Result<Transaction, LedgerError>)
      modifies this
      ensures db == AfterCreate(old(db), userID, newID, input)
      ensures r.Ok? <==> CreateSucceeds(old(db), userID, newID, input)
      ensures r.Ok? ==> r.value == RowFor(userID, input)
    {
      var begun := db;
      r := CreateInTx(userID, newID, input);
      if r.Err? {
        db := begun;
      }
    }

    method Update(userID: Id, id: Id, input: TransactionInput) returns (r: Result<Transaction, LedgerError>)
      modifies this
      ensures db == AfterUpdate(old(db), userID, id, input)
      ensures r.Ok? <==> UpdateSucceeds(old(db), userID, id, input)
      ensures r.Ok? ==> r.value == RowFor(userID, input)
      ensures id !in old(db).transactions ==> r == Err(NotFound)
      ensures r == Err(Forbidden) <==> id in old(db).transactions && old(db).transactions[id].userID != userID
    {
      var begun := db;
      r := RevertRow(userID, id);
      if r.Err? {
        db := begun;
        return;
      }
      var before := r.value;
      RefsIgnoreBalances(begun, db.wallets, userID, input);
      r := PostRow(userID, input);
      if r.Err? {
        db := begun;
        return;
      }
      RebalancedTwice(begun.wallets, before, r.value);
      db := db.(transactions := db.transactions[id := r.value]);
    }

    method Delete(userID: Id, id: Id) returns (r: Result<(), LedgerError>)
      modifies this
      ensures db == AfterDelete(old(db), userID, id)
      ensures r.Ok? <==> DeleteSucceeds(old(db), userID, id)
      ensures id !in old(db).transactions ==> r == Err(NotFound)
      ensures r == Err(Forbidden) <==> id in old(db).transactions && old(db).transactions[id].userID != userID
    {
      var begun := db;
      var reverted := RevertRow(userID, id);
      if reverted.Err? {
        db := begun;
        return Err(reverted.error);
      }
      if id in db.retained {
        db := begun;
        return Err(ConstraintViolated);
      }
      db := db.(transactions := db.transactions - {id});
      return Ok(());
    }
  }
}

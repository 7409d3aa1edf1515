/** Where the ledger's 64-bit arithmetic agrees with exact arithmetic. */
module LedgerBounds {
  import opened Common
  import opened Ledger

  /** The deltas as machine arithmetic computes them: `amount + fee` and the negations wrap around. */
  function MachineDeltas(input: TransactionInput): seq<BalanceDelta>
    requires ValidInput(input)
  {
    match input.kind
    case Expense => [BalanceDelta(input.walletID, Wrap64(-input.amountMinor))]
    case Transfer =>
      var charge: int := Wrap64(input.amountMinor + input.feeMinor);
      [BalanceDelta(input.walletID, Wrap64(-charge)),
       BalanceDelta(input.toWalletID, input.amountMinor)]
    case _ => [BalanceDelta(input.walletID, input.amountMinor)]
  }

  function MachineReversed(ds: seq<BalanceDelta>): seq<BalanceDelta> {
    seq(|ds|, i requires 0 <= i < |ds| => BalanceDelta(ds[i].walletID, Wrap64(-ds[i].amountMinor)))
  }

  predicate Fits(input: TransactionInput) {
    MIN_INT64 <= input.amountMinor <= MAX_INT64 && MIN_INT64 <= input.feeMinor <= MAX_INT64
  }

  /** The deltas of a valid input are exact unless a transfer's amount and fee together exceed 2^63. */
  lemma DeltasExactIff(input: TransactionInput)
    requires ValidInput(input) && Fits(input)
    ensures MachineDeltas(input) == Deltas(input)
       <==> (input.kind.Transfer? ==> input.amountMinor + input.feeMinor <= MAX_INT64 + 1)
  {
    if input.kind.Transfer? {
      assert MachineDeltas(input)[0] == Deltas(input)[0] <==> input.amountMinor + input.feeMinor <= MAX_INT64 + 1;
    }
  }

  /** Their reversal is exact unless the charge reaches 2^63 or an adjustment is the least integer,
      whose negation is itself. */
  lemma ReversalExactIff(input: TransactionInput)
    requires ValidInput(input) && Fits(input)
    ensures MachineReversed(MachineDeltas(input)) == Reversed(Deltas(input))
       <==> && (input.kind.Transfer? ==> input.amountMinor + input.feeMinor <= MAX_INT64)
            && (input.kind.Adjustment? ==> input.amountMinor != MIN_INT64)
  {
    var machine, exact := MachineReversed(MachineDeltas(input)), Reversed(Deltas(input));
    assert machine[0] == exact[0]
      <==> && (input.kind.Transfer? ==> input.amountMinor + input.feeMinor <= MAX_INT64)
           && (input.kind.Adjustment? ==> input.amountMinor != MIN_INT64);
  }

  /** A transfer that overflows pays the source wallet instead of charging it. */
  lemma OverflowingTransferPaysTheSource()
    ensures
      var input := TransactionInput(Transfer, "a", "b", NO_ID, MAX_INT64, MAX_INT64, [], 1, "");
      ValidInput(input) && RowAllowed(input) && MachineDeltas(input)[0] == BalanceDelta("a", 2)
  {
  }
}

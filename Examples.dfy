/** Small concrete ledgers on which the behaviour of the handler is worked
    out in full. Signatures follow a toy scheme in which an input's
    signature verifies when it equals the claimed output's address, and
    every input signs the transaction's hash. */
module Examples {
  import opened Ledger
  import opened Validity
  import opened Epoch
  import AsWritten

  const Alice: Bytes := [1]
  const Bob: Bytes := [2]
  const Genesis: Bytes := [0]

  const Toy := Crypto((key: Bytes, msg: Bytes, sig: Bytes) => sig == key,
                      (tx: Transaction, i: nat) => tx.hash)

  const U1 := UTXO(Genesis, 0)
  const U2 := UTXO(Genesis, 1)

  /** Two outputs of ten, both Alice's. */
  const TwoCoins: Pool := map[U1 := Output(10, Alice), U2 := Output(10, Alice)]

  function Spend(hash: Bytes, claims: seq<UTXO>, outputs: seq<Output>): Transaction
  {
    Transaction(hash, seq(|claims|, k requires 0 <= k < |claims| => Input(claims[k].prevTxHash, claims[k].outputIndex, Alice)), outputs)
  }

  /** Alice pays Bob the ten of U1. */
  const PayBob := Spend([10], [U1], [Output(10, Bob)])

  /** A transaction may spend an output when it is in the pool, signed for,
      and not overspent. */
  lemma PayBobValid()
    ensures ValidTx(TwoCoins, Toy, PayBob)
  {
  }

  /** Submitting the same spend twice in one epoch accepts it once. */
  lemma ResubmissionAcceptedOnce()
    ensures Run(TwoCoins, Toy, [PayBob, PayBob]).accepted == [PayBob]
  {
    PayBobValid();
    assert [PayBob, PayBob][..1] == [PayBob];
    assert [PayBob][..0] == [];
    assert PayBob.inputs == [Input(Genesis, 0, Alice)];
    assert PayBob.inputs[1..] == [];
    assert MutuallyValid({}, PayBob.inputs) == Marking(true, {U1});
    assert Run(TwoCoins, Toy, [PayBob]) == EpochState([PayBob], {U1});
    assert MutuallyValid({U1}, PayBob.inputs) == Marking(false, {U1});
  }

  /** Paying out more than the claimed value is rejected, signature or not. */
  lemma OverspendInvalid()
    ensures !ValidTx(TwoCoins, Toy, Spend([11], [U1], [Output(7, Bob), Output(7, Bob)]))
  {
    var tx := Spend([11], [U1], [Output(7, Bob), Output(7, Bob)]);
    assert tx.inputs == [Input(Genesis, 0, Alice)];
    assert ClaimedSum(TwoCoins, tx.inputs) == 10;
    assert tx.outputs[..1] == [Output(7, Bob)] && tx.outputs[..1][..0] == [];
    assert OutputSum(tx.outputs[..1]) == 7;
    assert OutputSum(tx.outputs) == 14;
  }

  /** A claim of the same output by two inputs is rejected. */
  lemma SameOutputTwiceInvalid()
    ensures !ValidTx(TwoCoins, Toy, Spend([12], [U1, U1], [Output(20, Bob)]))
  {
    var tx := Spend([12], [U1, U1], [Output(20, Bob)]);
    DoubleClaimInvalid(TwoCoins, Toy, tx, 0, 1);
  }

  /** A negative output is rejected even when it balances the sums. */
  lemma NegativePayoutInvalid()
    ensures !ValidTx(TwoCoins, Toy, Spend([13], [U1], [Output(-1, Bob)]))
  {
  }

  /** A rejected candidate leaves marks: `Both` is valid but conflicts with
      `PayBob` at its second input, after marking U2 at its first; then
      `SpendU2`, valid and sharing no output with any accepted transaction,
      is rejected too. */
  const Both := Spend([14], [U2, U1], [Output(20, Bob)])
  const SpendU2 := Spend([15], [U2], [Output(10, Bob)])

  lemma RejectedCandidateBlocksLater()
    ensures ValidTx(TwoCoins, Toy, SpendU2)
    ensures ClaimsOf(SpendU2.inputs) !! ClaimsOf(PayBob.inputs)
    ensures Run(TwoCoins, Toy, [PayBob, Both, SpendU2]).accepted == [PayBob]
  {
    var txs := [PayBob, Both, SpendU2];
    assert txs[..2][..1] == [PayBob] && txs[..2] == [PayBob, Both];
    assert [PayBob][..0] == [];
    assert PayBob.inputs == [Input(Genesis, 0, Alice)];
    assert Both.inputs == [Input(Genesis, 1, Alice), Input(Genesis, 0, Alice)];
    assert SpendU2.inputs == [Input(Genesis, 1, Alice)];
    PayBobValid();
    assert PayBob.inputs[1..] == [];
    assert MutuallyValid({}, PayBob.inputs) == Marking(true, {U1});
    assert Run(TwoCoins, Toy, [PayBob][..0]) == EpochState([], {});
    var s1 := Run(TwoCoins, Toy, [PayBob]);
    assert s1 == Step(TwoCoins, Toy, EpochState([], {}), PayBob);
    assert s1 == EpochState([PayBob], {U1});
    assert ValidTx(TwoCoins, Toy, Both) by {
      assert Both.inputs[..1] == [Input(Genesis, 1, Alice)] && Both.inputs[..1][..0] == [];
      assert ClaimedSum(TwoCoins, Both.inputs[..1]) == 10;
      assert ClaimedSum(TwoCoins, Both.inputs) == 20;
      assert OutputSum(Both.outputs) == 20;
    }
    var s2 := Run(TwoCoins, Toy, [PayBob, Both]);
    assert Both.inputs[1..] == [Input(Genesis, 0, Alice)];
    assert MutuallyValid({U1}, Both.inputs) == Marking(false, {U1, U2});
    assert s2 == EpochState([PayBob], {U1, U2});
    assert ValidTx(TwoCoins, Toy, SpendU2) by {
      assert ClaimedSum(TwoCoins, SpendU2.inputs) == 10;
      assert OutputSum(SpendU2.outputs) == 10;
    }
    assert MutuallyValid({U1, U2}, SpendU2.inputs) == Marking(false, {U1, U2});
  }

  /** The check as written loses even the valid spend `PayBob`. */
  lemma AsWrittenLosesValidSpend()
    ensures ValidTx(TwoCoins, Toy, PayBob)
    ensures AsWritten.IsValidTx(TwoCoins, Toy, PayBob) == AsWritten.NullPointerThrown
  {
  }
}

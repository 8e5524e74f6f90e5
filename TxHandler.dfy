/** The transaction handler of TxHandler.java: a ledger that owns a pool of
    unspent outputs, checks single transactions against it, and filters one
    epoch's candidates into a mutually valid, individually valid subset. */
module Handler {
  import opened Ledger
  import opened Validity
  import opened Epoch

  class TxHandler {
    /** The handler's own pool. A `map` is a value, so the handler holds a
        copy of whatever pool it was built from: nothing the caller later
        does to its own pool can reach this one. */
    var pool: Pool
    /** Signature verification and the signed bytes of a transaction. */
    const crypto: Crypto

    constructor (utxoPool: Pool, crypto: Crypto)
      ensures pool == utxoPool && this.crypto == crypto
    {
      pool := utxoPool;
      this.crypto := crypto;
    }

    /** Checks the inputs in order (claimed output in the pool, not claimed
        before by this transaction, signature valid), adding up the claimed
        value; then checks the outputs in order (value not negative), adding
        up the value paid out; then compares the two sums. Returns false at
        the first failed check. Reads the pool and changes nothing. */
    method IsValidTx(tx: Transaction) returns (valid: bool)
      ensures valid <==> ValidTx(pool, crypto, tx)
    {
      var inputSum := 0;
      var outputSum := 0;
      var seen: set<UTXO> := {};
      var inputs := tx.inputs;
      for i := 0 to |inputs|
        invariant forall j :: 0 <= j < i ==> Claim(inputs[j]) in pool
        invariant forall j :: 0 <= j < i ==> SignatureValid(pool, crypto, tx, j)
        invariant seen == ClaimsOf(inputs[..i])
        invariant NoDoubleClaim(inputs[..i])
        invariant inputSum == ClaimedSum(pool, inputs[..i])
      {
        var input := inputs[i];
        var utxo := Claim(input);
        if utxo !in pool {
          UnclaimedInvalid(pool, crypto, tx, i);
          return false;
        }
        // the output must not have been claimed by an earlier input
        if utxo in seen {
          ClaimedEarlierInvalid(pool, crypto, tx, i);
          return false;
        }
        seen := seen + {utxo};
        var claimedOutput := pool[utxo];
        var verified := crypto.verifySignature(claimedOutput.address, crypto.rawDataToSign(tx, i), input.signature);
        if !verified {
          BadSignatureInvalid(pool, crypto, tx, i);
          return false;
        }
        inputSum := inputSum + claimedOutput.value;
        ClaimsOfSnoc(inputs, i);
        NoDoubleClaimSnoc(inputs, i);
        assert inputs[..i + 1][..i] == inputs[..i];
      }
      assert inputs[..|inputs|] == inputs;

      var outputs := tx.outputs;
      for i := 0 to |outputs|
        invariant NoNegativeOutput(outputs[..i])
        invariant outputSum == OutputSum(outputs[..i])
      {
        var output := outputs[i];
        if output.value < 0 {
          NegativeOutputInvalid(pool, crypto, tx, i);
          return false;
        }
        outputSum := outputSum + output.value;
        assert outputs[..i + 1][..i] == outputs[..i];
      }
      assert outputs[..|outputs|] == outputs;

      if inputSum < outputSum {
        return false;
      }
      return true;
    }

    /** Walks the inputs in order, failing at the first whose output is
        already in `claimed` and otherwise adding it there; the marks made
        before a failure are kept. The HashMap the source updates in place
        is passed in and handed back. */
    method IsMutuallyValid(tx: Transaction, claimed: set<UTXO>) returns (ok: bool, claimed': set<UTXO>)
      ensures Marking(ok, claimed') == MutuallyValid(claimed, tx.inputs)
      ensures ok <==> ClaimsOf(tx.inputs) !! claimed && NoDoubleClaim(tx.inputs)
      ensures claimed <= claimed' <= claimed + ClaimsOf(tx.inputs)
      ensures ok ==> claimed' == claimed + ClaimsOf(tx.inputs)
    {
      MutuallyValidIff(claimed, tx.inputs);
      MutuallyValidMarks(claimed, tx.inputs);
      claimed' := claimed;
      var inputs := tx.inputs;
      for j := 0 to |inputs|
        invariant MutuallyValid(claimed', inputs[j..]) == MutuallyValid(claimed, inputs)
      {
        assert inputs[j..][1..] == inputs[j + 1..];
        var utxo := Claim(inputs[j]);
        if utxo in claimed' {
          return false, claimed';
        }
        claimed' := claimed' + {utxo};
      }
      return true, claimed';
    }

    /** One epoch: keeps, in submission order, each candidate that is valid
        against the pool and whose inputs the mutual-validity walk accepts.
        The pool is read, never written: there is no `modifies` clause. */
    method HandleTxs(possibleTxs: seq<Transaction>) returns (accepted: seq<Transaction>)
      ensures accepted == Run(pool, crypto, possibleTxs).accepted
      ensures Subsequence(accepted, possibleTxs)
      ensures forall k :: 0 <= k < |accepted| ==> ValidTx(pool, crypto, accepted[k])
      ensures forall k, l :: 0 <= k < l < |accepted|
                ==> ClaimsOf(accepted[k].inputs) !! ClaimsOf(accepted[l].inputs)
    {
      var claimed: set<UTXO> := {};
      accepted := [];
      for i := 0 to |possibleTxs|
        invariant EpochState(accepted, claimed) == Run(pool, crypto, possibleTxs[..i])
      {
        var tx := possibleTxs[i];
        assert possibleTxs[..i + 1][..i] == possibleTxs[..i];
        var valid := IsValidTx(tx);
        if !valid {
          continue;
        }
        var ok;
        ok, claimed := IsMutuallyValid(tx, claimed);
        if !ok {
          continue;
        }
        accepted := accepted + [tx];
      }
      assert possibleTxs[..|possibleTxs|] == possibleTxs;
      RunIsSubsequenceOfSubmission(pool, crypto, possibleTxs);
      RunAcceptsOnlyValid(pool, crypto, possibleTxs);
      RunAcceptsDisjoint(pool, crypto, possibleTxs);
    }
  }
}

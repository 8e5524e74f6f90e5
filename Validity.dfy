/** The five conditions under which a single transaction is valid against
    a pool of unspent outputs, as the documentation of `isValidTx` lists
    them (TxHandler.java, lines 19-27). Each is a pure predicate of the
    pool and the transaction; the handler's loop-based check is proved
    equal to their conjunction. */
module Validity {
  import opened Ledger

  /** (1) Every output the inputs claim is in the pool. */
  predicate AllClaimedInPool(pool: Pool, inputs: seq<Input>)
  {
    forall i :: 0 <= i < |inputs| ==> Claim(inputs[i]) in pool
  }

  /** (2) Every input's signature verifies, under the public key of the
      output it claims, over the bytes of `tx` that input `i` signs. */
  predicate SignaturesValid(pool: Pool, crypto: Crypto, tx: Transaction)
    requires AllClaimedInPool(pool, tx.inputs)
  {
    forall i :: 0 <= i < |tx.inputs| ==> SignatureValid(pool, crypto, tx, i)
  }

  predicate SignatureValid(pool: Pool, crypto: Crypto, tx: Transaction, i: nat)
    requires i < |tx.inputs| && Claim(tx.inputs[i]) in pool
  {
    crypto.verifySignature(pool[Claim(tx.inputs[i])].address,
                           crypto.rawDataToSign(tx, i),
                           tx.inputs[i].signature)
  }

  /** (3) No output is claimed by two inputs. */
  predicate NoDoubleClaim(inputs: seq<Input>)
  {
    forall i, j :: 0 <= i < j < |inputs| ==> Claim(inputs[i]) != Claim(inputs[j])
  }

  /** Extending a duplicate-free prefix by an input whose output the prefix
      does not claim keeps it duplicate-free. */
  lemma NoDoubleClaimSnoc(inputs: seq<Input>, i: nat)
    requires i < |inputs|
    requires NoDoubleClaim(inputs[..i]) && Claim(inputs[i]) !in ClaimsOf(inputs[..i])
    ensures NoDoubleClaim(inputs[..i + 1])
  {
  }

  /** (4) No output value is negative. */
  predicate NoNegativeOutput(outputs: seq<Output>)
  {
    forall k :: 0 <= k < |outputs| ==> outputs[k].value >= 0
  }

  /** Total value of the outputs the inputs claim, added in input order. */
  function ClaimedSum(pool: Pool, inputs: seq<Input>): int
    requires AllClaimedInPool(pool, inputs)
  {
    if inputs == [] then 0
    else ClaimedSum(pool, inputs[..|inputs| - 1]) + pool[Claim(inputs[|inputs| - 1])].value
  }

  /** Total value of a sequence of outputs, added in order. */
  function OutputSum(outputs: seq<Output>): int
  {
    if outputs == [] then 0
    else OutputSum(outputs[..|outputs| - 1]) + outputs[|outputs| - 1].value
  }

  /** (5) The claimed value covers the value paid out. */
  predicate Balanced(pool: Pool, tx: Transaction)
    requires AllClaimedInPool(pool, tx.inputs)
  {
    ClaimedSum(pool, tx.inputs) >= OutputSum(tx.outputs)
  }

  /** A transaction is valid exactly when all five conditions hold. */
  predicate ValidTx(pool: Pool, crypto: Crypto, tx: Transaction)
  {
    && AllClaimedInPool(pool, tx.inputs)
    && SignaturesValid(pool, crypto, tx)
    && NoDoubleClaim(tx.inputs)
    && NoNegativeOutput(tx.outputs)
    && Balanced(pool, tx)
  }

  /** Each condition is necessary: a transaction that breaks any one of
      them is invalid, whatever the others say. */
  lemma UnclaimedInvalid(pool: Pool, crypto: Crypto, tx: Transaction, i: nat)
    requires i < |tx.inputs| && Claim(tx.inputs[i]) !in pool
    ensures !ValidTx(pool, crypto, tx)
  {
  }

  lemma BadSignatureInvalid(pool: Pool, crypto: Crypto, tx: Transaction, i: nat)
    requires i < |tx.inputs| && Claim(tx.inputs[i]) in pool
    requires !SignatureValid(pool, crypto, tx, i)
    ensures !ValidTx(pool, crypto, tx)
  {
  }

  lemma DoubleClaimInvalid(pool: Pool, crypto: Crypto, tx: Transaction, i: nat, j: nat)
    requires i < j < |tx.inputs| && Claim(tx.inputs[i]) == Claim(tx.inputs[j])
    ensures !ValidTx(pool, crypto, tx)
  {
  }

  /** The form the handler's loop meets: input `i` claims an output that
      one of the inputs before it already claims. */
  lemma ClaimedEarlierInvalid(pool: Pool, crypto: Crypto, tx: Transaction, i: nat)
    requires i < |tx.inputs| && Claim(tx.inputs[i]) in ClaimsOf(tx.inputs[..i])
    ensures !ValidTx(pool, crypto, tx)
  {
  }

  lemma NegativeOutputInvalid(pool: Pool, crypto: Crypto, tx: Transaction, k: nat)
    requires k < |tx.outputs| && tx.outputs[k].value < 0
    ensures !ValidTx(pool, crypto, tx)
  {
  }

  /** A sum of outputs none of which is negative is itself not negative. */
  lemma {:induction false} OutputSumNonNegative(outputs: seq<Output>)
    requires NoNegativeOutput(outputs)
    ensures OutputSum(outputs) >= 0
  {
    if outputs != [] {
      OutputSumNonNegative(outputs[..|outputs| - 1]);
    }
  }

  /** A valid transaction pays out a non-negative amount that the value
      of the outputs it claims covers. */
  lemma ValidTxPaysWithinClaim(pool: Pool, crypto: Crypto, tx: Transaction)
    requires ValidTx(pool, crypto, tx)
    ensures 0 <= OutputSum(tx.outputs) <= ClaimedSum(pool, tx.inputs)
  {
    OutputSumNonNegative(tx.outputs);
  }
}

/** The ledger's value types: unspent-output handles, inputs, outputs,
    transactions, the pool of unspent outputs, and the cryptographic
    collaborators the handler consumes but does not implement. */
module Ledger {

  type Bytes = seq<bv8>

  /** Handle of one spendable output: the hash of the transaction that
      created it and the output's position in that transaction.
      Equality is structural, as the pool's keys require. */
  datatype UTXO = UTXO(prevTxHash: Bytes, outputIndex: nat)

  /** An output: an amount and the public key (address) that may spend it.
      Amounts are exact integers; a negative amount is representable
      because validity has to reject it. */
  datatype Output = Output(value: int, address: Bytes)

  /** An input: the output it claims and the signature that authorises
      the claim. */
  datatype Input = Input(prevTxHash: Bytes, outputIndex: nat, signature: Bytes)

  datatype Transaction = Transaction(hash: Bytes, inputs: seq<Input>, outputs: seq<Output>)

  /** The set of currently unspent outputs, keyed by their handle. */
  type Pool = map<UTXO, Output>

  /** The collaborators the handler calls but cannot see into:
      signature verification over (public key, message, signature), and the
      bytes of a transaction that input `i` signs. Both are deterministic
      and otherwise unconstrained. */
  datatype Crypto = Crypto(
    verifySignature: (Bytes, Bytes, Bytes) -> bool,
    rawDataToSign: (Transaction, nat) -> Bytes)

  /** The unspent output an input claims. */
  function Claim(input: Input): UTXO
  {
    UTXO(input.prevTxHash, input.outputIndex)
  }

  /** Every output claimed by a sequence of inputs. */
  function ClaimsOf(inputs: seq<Input>): set<UTXO>
  {
    set j | 0 <= j < |inputs| :: Claim(inputs[j])
  }

  lemma ClaimsOfSnoc(inputs: seq<Input>, i: nat)
    requires i < |inputs|
    ensures ClaimsOf(inputs[..i + 1]) == ClaimsOf(inputs[..i]) + {Claim(inputs[i])}
  {
  }
}

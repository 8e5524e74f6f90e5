/** The duplicate-claim test of `isValidTx` as the source writes it
    (TxHandler.java, lines 45-49), kept beside the corrected check that the
    handler uses.

    As written, the test stores a per-output counter in a HashMap and
    unboxes the value `put` returns into an `int`. `HashMap.put` returns the
    previous value, which is null the first time a key is stored, and
    unboxing null throws a NullPointerException. So the first input whose
    output is in the pool always throws, and no transaction that spends
    anything can be accepted. The handler in module Handler tests membership
    in the set of outputs already seen instead. */
module AsWritten {
  import opened Ledger
  import opened Validity

  /** A Java `Integer`: null or a boxed int. */
  datatype Boxed = Null | Box(n: int)

  /** How a call ends: a returned boolean, or a NullPointerException. */
  datatype Completion = Returned(b: bool) | NullPointerThrown

  /** Increments the counter of `u` (taking an absent counter as zero)
      and returns the previous boxed counter, null when `u` was absent,
      with the updated map. */
  function Put(freq: map<UTXO, int>, u: UTXO): (r: (Boxed, map<UTXO, int>))
    ensures r.0 == Null <==> u !in freq
    ensures u in freq ==> r.0 == Box(freq[u])
    ensures r.1.Keys == freq.Keys + {u}
    ensures u in r.1 && r.1[u] == (if u in freq then freq[u] else 0) + 1
    ensures forall v :: v in freq && v != u ==> v in r.1 && r.1[v] == freq[v]
  {
    (if u in freq then Box(freq[u]) else Null,
     freq[u := (if u in freq then freq[u] else 0) + 1])
  }

  /** The input loop of `isValidTx` as written, from input `i` on, with
      the counters `freq` and the running input sum; on normal completion
      of the loop the output checks follow, given here as their result. */
  function InputLoop(pool: Pool, crypto: Crypto, tx: Transaction, i: nat,
                     freq: map<UTXO, int>, inputSum: int): Completion
    decreases |tx.inputs| - i
  {
    if i >= |tx.inputs| then
      Returned(NoNegativeOutput(tx.outputs) && inputSum >= OutputSum(tx.outputs))
    else
      var utxo := Claim(tx.inputs[i]);
      if utxo !in pool then Returned(false)
      else
        var (timesFoundAlready, freq') := Put(freq, utxo);
        if timesFoundAlready == Null then NullPointerThrown
        else if timesFoundAlready.n >= 1 then Returned(false)
        else
          var claimed := pool[utxo];
          if !crypto.verifySignature(claimed.address, crypto.rawDataToSign(tx, i), tx.inputs[i].signature)
          then Returned(false)
          else InputLoop(pool, crypto, tx, i + 1, freq', inputSum + claimed.value)
  }

  /** `isValidTx` as written. */
  function IsValidTx(pool: Pool, crypto: Crypto, tx: Transaction): Completion
  {
    InputLoop(pool, crypto, tx, 0, map[], 0)
  }

  /** As written, the check throws exactly when the first input's output is
      in the pool, and returns true only for a transaction that spends
      nothing: every spending transaction is lost, valid or not. */
  lemma IsValidTxThrows(pool: Pool, crypto: Crypto, tx: Transaction)
    ensures IsValidTx(pool, crypto, tx) == NullPointerThrown
        <==> |tx.inputs| > 0 && Claim(tx.inputs[0]) in pool
    ensures IsValidTx(pool, crypto, tx) == Returned(true)
        <==> |tx.inputs| == 0 && ValidTx(pool, crypto, tx)
  {
  }
}

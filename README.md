# UTXO transaction handler

A model of `TxHandler`, the ledger of a toy cryptocurrency in which coins
are unspent transaction outputs (UTXOs). The handler owns a pool of
unspent outputs, keyed by (hash of the creating transaction, output
index). It does two things:

- `isValidTx` checks one transaction against the pool. It is valid when
  (1) every output its inputs claim is in the pool, (2) every input's
  signature verifies under the claimed output's address, (3) no output is
  claimed twice, (4) no output value is negative, and (5) the claimed
  value covers the value paid out.
- `handleTxs` filters one epoch's candidates in submission order. It drops
  a candidate that is not valid. It also drops a candidate when one of its
  inputs claims an output already marked in an epoch-wide map. It returns
  the remaining candidates in order.

Files:

- `Ledger.dfy`: the value types (`UTXO`, `Input`, `Output`, `Transaction`),
  the pool as a `map<UTXO, Output>`, and the cryptographic collaborators.
- `Validity.dfy`: the five validity conditions as pure predicates, their
  conjunction `ValidTx`, and lemmas that each condition is necessary.
- `Epoch.dfy`: the epoch pass as pure functions (`MutuallyValid`, `Step`,
  `Run`) and what the pass guarantees.
- `TxHandler.dfy`: the class `TxHandler` with its `pool` field, its
  constructor, and the loop-based methods `IsValidTx`, `IsMutuallyValid`
  and `HandleTxs`. Each method is proved equal to the pure specification.
- `AsWritten.dfy`: the duplicate-claim test as the source writes it (see
  Findings).
- `Examples.dfy`: small concrete ledgers worked out in full.

Where the code and its surrounding description differ, the model follows
the code:

- The documentation of `handleTxs` (TxHandler.java:96) says the pool is
  updated, but the body (lines 98-110) never touches `pool`. `HandleTxs`
  has no `modifies` clause, so the pool is unchanged.
- A candidate that is valid but meets an already-marked output part way
  through its inputs keeps the marks it made before that point
  (lines 85-88). These marks can block a later candidate that shares no
  output with any accepted transaction. `Examples.RejectedCandidateBlocksLater`
  works out such a case. An "unmark on rejection" design would accept that
  later candidate; the code does not.
- The source does not compile as written. `new` is missing at lines 16 and
  40. `signature` at line 53 stands for `input.signature`. `inputs` at
  line 81 stands for `tx.getInputs()`. `ArrayList` is used at lines 36,
  63 and 100, but only `HashMap` is imported (line 1). The model follows
  these evident readings.

## Model

| member | source | states |
|---|---|---|
| `Handler.TxHandler.constructor` | TxHandler.java:9-17 | the handler's pool equals the given pool; a map is a value, so later changes to the caller's pool cannot reach it |
| `Handler.TxHandler.IsValidTx` | TxHandler.java:19-77 | the loop check returns true exactly when all five conditions hold (`ValidTx`); it has no `modifies` clause, so the pool is not changed |
| `Validity.UnclaimedInvalid` | TxHandler.java:40-43 | a transaction with an input whose claimed output is not in the pool is invalid |
| `Validity.DoubleClaimInvalid` | TxHandler.java:45-49 | a transaction in which two inputs claim the same output is invalid |
| `Validity.BadSignatureInvalid` | TxHandler.java:51-56 | a transaction with an input whose signature does not verify, under the claimed output's address over the bytes input `i` signs, is invalid |
| `Validity.NegativeOutputInvalid` | TxHandler.java:64-68 | a transaction with a negative output value is invalid |
| `Validity.OutputSumNonNegative` | TxHandler.java:63-70 | the sum of outputs that are none of them negative is not negative |
| `Validity.ValidTxPaysWithinClaim` | TxHandler.java:72-76 | a valid transaction pays out a non-negative amount no greater than the value it claims |
| `Handler.TxHandler.IsMutuallyValid` | TxHandler.java:80-91 | accepts exactly when no input claims an already-marked output and no two inputs claim the same output; the marked set only grows, by the inputs' outputs, and by all of them on acceptance |
| `Epoch.MutuallyValidIff` | TxHandler.java:80-91 | the mutual-validity walk accepts iff the inputs' outputs are disjoint from the marked set and pairwise distinct |
| `Epoch.MutuallyValidMarks` | TxHandler.java:80-91 | the walk never unmarks; it marks only outputs the inputs claim, and all of them when it accepts |
| `Epoch.MutuallyValidKeepsPrefix` | TxHandler.java:85-88 | on rejection the walk stopped at the first input `k` whose output was already marked: the inputs before `k` pass the walk, and the marked set is exactly the old marks plus the outputs those inputs claim |
| `Epoch.StepAcceptsIff` | TxHandler.java:101-107 | a candidate is appended exactly when it is valid and shares no output with the marked set; otherwise the accepted list is unchanged; the marked set never shrinks |
| `Epoch.RunIsSubsequence` | TxHandler.java:98-109 | the accepted list is the candidates at strictly increasing positions, in submission order |
| `Epoch.RunIsSubsequenceOfSubmission` | TxHandler.java:98-109 | the accepted list is a subsequence of the candidates |
| `Epoch.RunAcceptsOnlyValid` | TxHandler.java:101-106 | every accepted transaction is valid against the pool, and its claimed outputs are marked |
| `Epoch.RunAcceptsDisjoint` | TxHandler.java:98-107 | no two accepted transactions claim a common output |
| `Epoch.RunClaimedGrows` | TxHandler.java:99-107 | the epoch's marked set after any prefix of the candidates is contained in the set after all of them, marks left by rejected candidates included |
| `Epoch.EpochCreatesNoValue` | TxHandler.java:98-107 | the total paid out by the accepted transactions is covered by the total they claim from the pool |
| `Handler.TxHandler.HandleTxs` | TxHandler.java:93-110 | the loop returns exactly the pass's accepted list: a subsequence of the candidates, each valid, pairwise disjoint in the outputs they claim; it has no `modifies` clause, so the pool is unchanged |
| `AsWritten.Put` | TxHandler.java:46 | `HashMap.put` returns null exactly when the key was absent and the previous counter when it was present; it stores the incremented counter, leaves the other counters alone and adds no other key |
| `AsWritten.IsValidTxThrows` | TxHandler.java:45-49 | as written, the check throws exactly when the first input's output is in the pool, and returns true only for a valid transaction with no inputs |
| `Examples.PayBobValid` | TxHandler.java:19-27 | a signed spend of a pooled output that pays out its full value is valid |
| `Examples.ResubmissionAcceptedOnce` | TxHandler.java:98-107 | the same spend submitted twice in one epoch is accepted once |
| `Examples.OverspendInvalid` | TxHandler.java:72-74 | paying out more than the claimed value is invalid |
| `Examples.SameOutputTwiceInvalid` | TxHandler.java:45-49 | claiming one output with two inputs is invalid |
| `Examples.NegativePayoutInvalid` | TxHandler.java:66-68 | a negative output is invalid even though the sums balance |
| `Examples.RejectedCandidateBlocksLater` | TxHandler.java:85-88 | a rejected candidate's marks make the pass reject a later valid candidate that shares no output with any accepted one |
| `Examples.AsWrittenLosesValidSpend` | TxHandler.java:46-47 | the check as written throws on a valid spend |

## Left out

- Amounts are exact integers. The source uses `double` values (lines 29-30, 58, 66, 69, 72). So the model does not represent fractional amounts, rounding in the sums, or NaN and infinite values. In Java an output of value NaN passes both `output.value < 0` (line 66) and `inputSum < outputSum` (line 72), so such a transaction is accepted; that case cannot arise here.
- `Crypto.verifySignature` and `getRawDataToSign` are foreign code. They are the two function-typed fields of `Crypto`, with no properties assumed. The transaction hash is an unconstrained data field `hash` of `Transaction`; how it is computed is not modelled.
- `UTXOPool`, `UTXO` and `Transaction` are not part of this model. The pool is a `map<UTXO, Output>`, and the others are datatypes with structural equality.
- The candidates are a `seq<Transaction>`, and `HandleTxs` returns a `seq`. The `ArrayList` to array conversion at line 109 is left out.
- `Handler.TxHandler.IsMutuallyValid`: the epoch `HashMap<UTXO, Boolean>` that the source updates in place is a `set<UTXO>` passed in and handed back. Its values are always `true`. Aliasing of that map is not modelled.
- Output indices are `nat`. A negative Java index can never be in a pool keyed by `nat`, so it would be rejected as "not in the pool"; this case is not represented.
- Null transactions, null inputs and null fields are not modelled.
- No pool update in `handleTxs`, because the code does none.

## Findings

| source | as written | input that shows it | evidently intended | confidence | as-written member | corrected member |
|---|---|---|---|---|---|---|
| TxHandler.java:46 | `put` returns the previous counter, which is null the first time an output is stored; unboxing it into `int` throws a NullPointerException, so every transaction whose first input claims a pooled output throws | the spend `Examples.PayBob`, valid by `Examples.PayBobValid` | reject only when an earlier input of the same transaction already claimed the output | high; not executed | `AsWritten.IsValidTxThrows` | `Handler.TxHandler.IsValidTx` |

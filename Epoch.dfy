/** The single pass that `handleTxs` makes over one epoch's candidates
    (TxHandler.java, lines 79-110), as pure functions of the pool and the
    candidates, with the properties the pass guarantees.

    The epoch-wide record of claimed outputs (a HashMap whose values are
    always `true`) is the set of its keys. Note that the pass never changes
    the pool: the documentation at TxHandler.java:96 speaks of updating it,
    but the code at lines 98-110 does not, and neither does this model. */
module Epoch {
  import opened Ledger
  import opened Validity

  /** Outcome of `isMutuallyValid`: whether no input met an output already
      claimed this epoch, and the claimed set afterwards. */
  datatype Marking = Marking(ok: bool, claimed: set<UTXO>)

  /** Walks the inputs in order; stops with `ok == false` at the first input
      whose output is already claimed, after marking every input before it;
      otherwise marks them all. */
  function MutuallyValid(claimed: set<UTXO>, inputs: seq<Input>): Marking
    decreases |inputs|
  {
    if inputs == [] then Marking(true, claimed)
    else if Claim(inputs[0]) in claimed then Marking(false, claimed)
    else MutuallyValid(claimed + {Claim(inputs[0])}, inputs[1..])
  }

  /** The check accepts exactly when no input claims an output already
      claimed this epoch and no two inputs claim the same output. */
  lemma {:induction false} MutuallyValidIff(claimed: set<UTXO>, inputs: seq<Input>)
    ensures MutuallyValid(claimed, inputs).ok
        <==> ClaimsOf(inputs) !! claimed && NoDoubleClaim(inputs)
    decreases |inputs|
  {
    if inputs != [] {
      var u := Claim(inputs[0]);
      var rest := inputs[1..];
      MutuallyValidIff(claimed + {u}, rest);
      ClaimsOfCons(inputs);
      if u !in claimed && ClaimsOf(rest) !! (claimed + {u}) && NoDoubleClaim(rest) {
        forall i, j | 0 <= i < j < |inputs| ensures Claim(inputs[i]) != Claim(inputs[j]) {
          assert Claim(inputs[j]) == Claim(rest[j - 1]);
          if i > 0 { assert Claim(inputs[i]) == Claim(rest[i - 1]); }
        }
      }
      if NoDoubleClaim(inputs) {
        forall i, j | 0 <= i < j < |rest| ensures Claim(rest[i]) != Claim(rest[j]) {
          assert Claim(rest[i]) == Claim(inputs[i + 1]) && Claim(rest[j]) == Claim(inputs[j + 1]);
        }
        forall v | v in ClaimsOf(rest) ensures v != u {
          var j :| 0 <= j < |rest| && Claim(rest[j]) == v;
          assert Claim(inputs[j + 1]) == v;
        }
      }
    }
  }

  lemma ClaimsOfCons(inputs: seq<Input>)
    requires inputs != []
    ensures ClaimsOf(inputs) == {Claim(inputs[0])} + ClaimsOf(inputs[1..])
  {
  }

  /** The claimed set only grows, by outputs the inputs claim; when the
      check accepts, it grows by all of them. */
  lemma {:induction false} MutuallyValidMarks(claimed: set<UTXO>, inputs: seq<Input>)
    ensures claimed <= MutuallyValid(claimed, inputs).claimed <= claimed + ClaimsOf(inputs)
    ensures MutuallyValid(claimed, inputs).ok
        ==> MutuallyValid(claimed, inputs).claimed == claimed + ClaimsOf(inputs)
    decreases |inputs|
  {
    if inputs != [] {
      ClaimsOfCons(inputs);
      if Claim(inputs[0]) !in claimed {
        MutuallyValidMarks(claimed + {Claim(inputs[0])}, inputs[1..]);
      }
    }
  }

  /** When the check rejects, it has stopped at the first input `k` whose
      output was already claimed, before it or earlier in the epoch: the
      inputs before `k` pass the check, and the marked set is exactly the
      old marks plus the outputs those inputs claim. */
  lemma {:induction false} MutuallyValidKeepsPrefix(claimed: set<UTXO>, inputs: seq<Input>)
    requires !MutuallyValid(claimed, inputs).ok
    ensures exists k :: 0 <= k < |inputs|
              && MutuallyValid(claimed, inputs[..k]).ok
              && Claim(inputs[k]) in claimed + ClaimsOf(inputs[..k])
              && MutuallyValid(claimed, inputs).claimed == claimed + ClaimsOf(inputs[..k])
    decreases |inputs|
  {
    var u := Claim(inputs[0]);
    var rest := inputs[1..];
    if u in claimed {
      assert ClaimsOf(inputs[..0]) == {};
      assert MutuallyValid(claimed, inputs[..0]).ok;
      assert Claim(inputs[0]) in claimed + ClaimsOf(inputs[..0]);
    } else {
      MutuallyValidKeepsPrefix(claimed + {u}, rest);
      var k :| 0 <= k < |rest|
        && MutuallyValid(claimed + {u}, rest[..k]).ok
        && Claim(rest[k]) in claimed + {u} + ClaimsOf(rest[..k])
        && MutuallyValid(claimed + {u}, rest).claimed == claimed + {u} + ClaimsOf(rest[..k]);
      PrefixCons(claimed, inputs, k);
      assert inputs[k + 1] == rest[k];
      var m := MutuallyValid(claimed, inputs);
      assert m == MutuallyValid(claimed + {u}, rest);
      assert m.claimed == claimed + ClaimsOf(inputs[..k + 1]);
      assert Claim(inputs[k + 1]) in claimed + ClaimsOf(inputs[..k + 1]);
      assert MutuallyValid(claimed, inputs[..k + 1]).ok;
    }
  }

  /** Walking the first `k + 1` inputs is marking the first, then walking
      the next `k`. */
  lemma PrefixCons(claimed: set<UTXO>, inputs: seq<Input>, k: nat)
    requires k < |inputs| - 1 && Claim(inputs[0]) !in claimed
    ensures MutuallyValid(claimed, inputs[..k + 1])
         == MutuallyValid(claimed + {Claim(inputs[0])}, inputs[1..][..k])
    ensures ClaimsOf(inputs[..k + 1]) == {Claim(inputs[0])} + ClaimsOf(inputs[1..][..k])
  {
    assert inputs[..k + 1][1..] == inputs[1..][..k];
    assert inputs[..k + 1][0] == inputs[0];
    ClaimsOfCons(inputs[..k + 1]);
  }

  /** State of the pass after some prefix of the candidates: the accepted
      transactions in order, and the outputs claimed so far. */
  datatype EpochState = EpochState(accepted: seq<Transaction>, claimed: set<UTXO>)

  /** One candidate: dropped unchanged if invalid against the pool;
      otherwise the mutual-validity walk marks its inputs and it is
      accepted when the walk finds no conflict. */
  function Step(pool: Pool, crypto: Crypto, st: EpochState, tx: Transaction): EpochState
  {
    if !ValidTx(pool, crypto, tx) then st
    else
      var m := MutuallyValid(st.claimed, tx.inputs);
      EpochState(if m.ok then st.accepted + [tx] else st.accepted, m.claimed)
  }

  /** The pass over the candidates in submission order, from an empty
      claimed set. */
  function Run(pool: Pool, crypto: Crypto, txs: seq<Transaction>): EpochState
  {
    if txs == [] then EpochState([], {})
    else Step(pool, crypto, Run(pool, crypto, txs[..|txs| - 1]), txs[|txs| - 1])
  }

  /** A candidate is accepted exactly when it is valid against the pool and
      none of the outputs it claims is already claimed this epoch. */
  lemma StepAcceptsIff(pool: Pool, crypto: Crypto, st: EpochState, tx: Transaction)
    ensures Step(pool, crypto, st, tx).accepted == st.accepted + [tx]
        <==> ValidTx(pool, crypto, tx) && ClaimsOf(tx.inputs) !! st.claimed
    ensures Step(pool, crypto, st, tx).accepted == st.accepted
        <==> !(ValidTx(pool, crypto, tx) && ClaimsOf(tx.inputs) !! st.claimed)
    ensures st.claimed <= Step(pool, crypto, st, tx).claimed
  {
    MutuallyValidIff(st.claimed, tx.inputs);
    MutuallyValidMarks(st.claimed, tx.inputs);
    assert st.accepted + [tx] != st.accepted by {
      assert |st.accepted + [tx]| != |st.accepted|;
    }
  }

  /** `a` is `b` with some elements left out, the rest kept in order:
      `idx` lists the positions kept, strictly increasing. */
  ghost predicate SubsequenceAt(a: seq<Transaction>, b: seq<Transaction>, idx: seq<nat>)
  {
    && |idx| == |a|
    && (forall k :: 0 <= k < |idx| ==> idx[k] < |b| && a[k] == b[idx[k]])
    && (forall k, l :: 0 <= k < l < |idx| ==> idx[k] < idx[l])
  }

  ghost predicate Subsequence(a: seq<Transaction>, b: seq<Transaction>)
  {
    exists idx :: SubsequenceAt(a, b, idx)
  }

  /** The positions of the candidates the pass accepts. */
  function AcceptedAt(pool: Pool, crypto: Crypto, txs: seq<Transaction>): (idx: seq<nat>)
    ensures forall k :: 0 <= k < |idx| ==> idx[k] < |txs|
  {
    if txs == [] then []
    else
      var n := |txs| - 1;
      var prev := Run(pool, crypto, txs[..n]);
      var here := if Step(pool, crypto, prev, txs[n]).accepted == prev.accepted then [] else [n];
      var rest := AcceptedAt(pool, crypto, txs[..n]);
      assert forall k :: 0 <= k < |rest| ==> rest[k] < |txs|;
      rest + here
  }

  /** The pass returns the candidates at strictly increasing positions:
      a subsequence of the submission in submission order. */
  lemma {:induction false} RunIsSubsequence(pool: Pool, crypto: Crypto, txs: seq<Transaction>)
    ensures SubsequenceAt(Run(pool, crypto, txs).accepted, txs, AcceptedAt(pool, crypto, txs))
  {
    if txs != [] {
      var n := |txs| - 1;
      var prev := Run(pool, crypto, txs[..n]);
      var idx := AcceptedAt(pool, crypto, txs[..n]);
      RunIsSubsequence(pool, crypto, txs[..n]);
      StepAcceptsIff(pool, crypto, prev, txs[n]);
      var a := Run(pool, crypto, txs).accepted;
      var idx' := AcceptedAt(pool, crypto, txs);
      forall k | 0 <= k < |idx'| ensures idx'[k] < |txs| && a[k] == txs[idx'[k]] {
        if k < |idx| { assert txs[..n][idx[k]] == txs[idx[k]]; }
      }
    }
  }

  lemma RunIsSubsequenceOfSubmission(pool: Pool, crypto: Crypto, txs: seq<Transaction>)
    ensures Subsequence(Run(pool, crypto, txs).accepted, txs)
  {
    RunIsSubsequence(pool, crypto, txs);
  }

  /** Every accepted transaction is valid against the pool, and every
      output an accepted transaction claims is marked claimed. */
  lemma {:induction false} RunAcceptsOnlyValid(pool: Pool, crypto: Crypto, txs: seq<Transaction>)
    ensures forall k :: 0 <= k < |Run(pool, crypto, txs).accepted|
              ==> ValidTx(pool, crypto, Run(pool, crypto, txs).accepted[k])
    ensures forall k :: 0 <= k < |Run(pool, crypto, txs).accepted|
              ==> ClaimsOf(Run(pool, crypto, txs).accepted[k].inputs) <= Run(pool, crypto, txs).claimed
  {
    if txs != [] {
      var n := |txs| - 1;
      var prev := Run(pool, crypto, txs[..n]);
      RunAcceptsOnlyValid(pool, crypto, txs[..n]);
      StepAcceptsIff(pool, crypto, prev, txs[n]);
      MutuallyValidMarks(prev.claimed, txs[n].inputs);
    }
  }

  /** No two accepted transactions claim the same output. */
  lemma {:induction false} RunAcceptsDisjoint(pool: Pool, crypto: Crypto, txs: seq<Transaction>)
    ensures forall k, l :: 0 <= k < l < |Run(pool, crypto, txs).accepted|
              ==> ClaimsOf(Run(pool, crypto, txs).accepted[k].inputs)
                  !! ClaimsOf(Run(pool, crypto, txs).accepted[l].inputs)
  {
    if txs != [] {
      var n := |txs| - 1;
      var prev := Run(pool, crypto, txs[..n]);
      RunAcceptsDisjoint(pool, crypto, txs[..n]);
      RunAcceptsOnlyValid(pool, crypto, txs[..n]);
      StepAcceptsIff(pool, crypto, prev, txs[n]);
    }
  }

  /** The claimed set only grows as the pass advances: marks left by a
      candidate, accepted or not, are never removed. */
  lemma {:induction false} RunClaimedGrows(pool: Pool, crypto: Crypto, txs: seq<Transaction>, i: nat)
    requires i <= |txs|
    ensures Run(pool, crypto, txs[..i]).claimed <= Run(pool, crypto, txs).claimed
  {
    if i < |txs| {
      var n := |txs| - 1;
      assert txs[..n][..i] == txs[..i];
      RunClaimedGrows(pool, crypto, txs[..n], i);
      StepAcceptsIff(pool, crypto, Run(pool, crypto, txs[..n]), txs[n]);
    } else {
      assert txs[..i] == txs;
    }
  }

  /** Total value paid out, and total value claimed, by a sequence of
      transactions that each claim only outputs in the pool. */
  function TotalOutput(txs: seq<Transaction>): int
  {
    if txs == [] then 0 else TotalOutput(txs[..|txs| - 1]) + OutputSum(txs[|txs| - 1].outputs)
  }

  function TotalClaimed(pool: Pool, txs: seq<Transaction>): int
    requires forall k :: 0 <= k < |txs| ==> AllClaimedInPool(pool, txs[k].inputs)
  {
    if txs == [] then 0
    else TotalClaimed(pool, txs[..|txs| - 1]) + ClaimedSum(pool, txs[|txs| - 1].inputs)
  }

  /** An epoch creates no value: what the accepted transactions pay out
      is covered by what they claim from the pool. */
  lemma {:induction false} EpochCreatesNoValue(pool: Pool, crypto: Crypto, txs: seq<Transaction>)
    ensures forall k :: 0 <= k < |Run(pool, crypto, txs).accepted|
              ==> AllClaimedInPool(pool, Run(pool, crypto, txs).accepted[k].inputs)
    ensures TotalOutput(Run(pool, crypto, txs).accepted)
            <= TotalClaimed(pool, Run(pool, crypto, txs).accepted)
  {
    RunAcceptsOnlyValid(pool, crypto, txs);
    ValidTotals(pool, crypto, Run(pool, crypto, txs).accepted);
  }

  lemma {:induction false} ValidTotals(pool: Pool, crypto: Crypto, txs: seq<Transaction>)
    requires forall k :: 0 <= k < |txs| ==> ValidTx(pool, crypto, txs[k])
    ensures forall k :: 0 <= k < |txs| ==> AllClaimedInPool(pool, txs[k].inputs)
    ensures TotalOutput(txs) <= TotalClaimed(pool, txs)
  {
    if txs != [] {
      ValidTotals(pool, crypto, txs[..|txs| - 1]);
    }
  }
}

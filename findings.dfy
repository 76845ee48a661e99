/**
  handleTxs removes, for input i, the identifier (prevTxHash, i): the
  input's position, not the output index the input claims. These lemmas
  show what that does, and what removal by the claimed identifier
  (RemovalKey.ClaimedIndex) guarantees instead.
 */
module Findings {
  import opened Ledger
  import opened Batch
  import opened Scenarios

  /**
    As written: a claimed output whose identifier is not (prevTxHash, k) for
    any input position k, and that the transaction does not recreate,
    survives the transaction's acceptance unchanged, so it can be spent again.
   */
  lemma SpentClaimSurvivesAsWritten(pool: Pool, tx: Transaction, i: nat)
    requires i < |tx.inputs|
    requires ClaimOf(tx.inputs[i]) in pool
    requires ClaimOf(tx.inputs[i]).txHash != tx.hash
    requires forall k :: 0 <= k < |tx.inputs| ==> Utxo(tx.inputs[k].prevTxHash, k) != ClaimOf(tx.inputs[i])
    ensures ClaimOf(tx.inputs[i]) in ApplyTx(pool, tx, InputPosition)
    ensures ApplyTx(pool, tx, InputPosition)[ClaimOf(tx.inputs[i])] == pool[ClaimOf(tx.inputs[i])]
  {
    ApplyTxEffect(pool, tx, InputPosition, ClaimOf(tx.inputs[i]));
  }

  /** A verifier that accepts every signature, and an empty signed payload. */
  function AcceptAll(): Externals {
    Externals((key: PublicKey, msg: Bytes, sig: Bytes) => true, (tx: Transaction, i: nat) => [])
  }

  /** The output (hash [0], index 1), worth 10. */
  function Funding(): Pool {
    map[Utxo([0], 1) := Output(10, [7])]
  }

  /** Two transactions that both spend output ([0], 1) in full. */
  function FirstSpend(): Transaction {
    Transaction([1], [Input([0], 1, [])], [Output(10, [8])])
  }

  function SecondSpend(): Transaction {
    Transaction([2], [Input([0], 1, [])], [Output(10, [9])])
  }

  /**
    As written, the batch [FirstSpend, SecondSpend] accepts both: acceptance
    of the first removes ([0], 0) instead of ([0], 1), so the 10 units are
    spent twice and the pool then holds 20.
   */
  lemma DoubleSpendAsWritten()
    ensures HandleBatch(Funding(), [FirstSpend(), SecondSpend()], Validator(AcceptAll()), InputPosition)
      == Outcome(map[Utxo([0], 1) := Output(10, [7]), Utxo([1], 0) := Output(10, [8]), Utxo([2], 0) := Output(10, [9])],
                 [FirstSpend(), SecondSpend()])
  {
    var t1, t2, ext := FirstSpend(), SecondSpend(), AcceptAll();
    var mid := map[Utxo([0], 1) := Output(10, [7]), Utxo([1], 0) := Output(10, [8])];
    assert Authorized(Funding(), t1, 0, ext);
    SingleSpendValidIff(Funding(), t1, ext);
    ApplySingle(Funding(), t1);
    assert (Funding() - {Utxo([0], 0)})[Utxo([1], 0) := Output(10, [8])] == mid;
    assert Authorized(mid, t2, 0, ext);
    SingleSpendValidIff(mid, t2, ext);
    ApplySingle(mid, t2);
    assert (mid - {Utxo([0], 0)})[Utxo([2], 0) := Output(10, [9])]
      == map[Utxo([0], 1) := Output(10, [7]), Utxo([1], 0) := Output(10, [8]), Utxo([2], 0) := Output(10, [9])];
    TwoCandidates(Funding(), t1, t2, Validator(ext), InputPosition);
  }

  /**
    As written, accepting FirstSpend against a pool that also holds an
    unrelated output ([0], 0) deletes that output, which nobody spent.
   */
  lemma UnrelatedOutputRemovedAsWritten()
    ensures var pool := Funding()[Utxo([0], 0) := Output(5, [6])];
      Utxo([0], 0) in pool && Utxo([0], 0) !in ApplyTx(pool, FirstSpend(), InputPosition)
  {
    ApplySingle(Funding()[Utxo([0], 0) := Output(5, [6])], FirstSpend());
  }

  /**
    Corrected: removing by the claimed identifier takes every claimed output
    out of the pool, unless the transaction's own hash recreates it.
   */
  lemma ClaimedOutputsSpent(pool: Pool, tx: Transaction)
    ensures forall i :: 0 <= i < |tx.inputs| && ClaimOf(tx.inputs[i]).txHash != tx.hash ==>
      ClaimOf(tx.inputs[i]) !in ApplyTx(pool, tx, ClaimedIndex)
  {
    forall i | 0 <= i < |tx.inputs| && ClaimOf(tx.inputs[i]).txHash != tx.hash
      ensures ClaimOf(tx.inputs[i]) !in ApplyTx(pool, tx, ClaimedIndex)
    {
      ApplyTxEffect(pool, tx, ClaimedIndex, ClaimOf(tx.inputs[i]));
      assert ConsumedKey(tx, i, ClaimedIndex) == ClaimOf(tx.inputs[i]);
    }
  }

  /**
    Corrected: of two candidates that claim the same output, at any input
    positions, the second is rejected once the first is accepted.
   */
  lemma ConflictingClaimsFirstWins(pool: Pool, t1: Transaction, t2: Transaction, ext: Externals, i: nat, k: nat)
    requires i < |t1.inputs| && k < |t2.inputs|
    requires ClaimOf(t1.inputs[i]) == ClaimOf(t2.inputs[k])
    requires ClaimOf(t1.inputs[i]).txHash != t1.hash
    requires ValidTx(pool, t1, ext)
    ensures HandleBatch(pool, [t1, t2], Validator(ext), ClaimedIndex).accepted == [t1]
  {
    TwoCandidates(pool, t1, t2, Validator(ext), ClaimedIndex);
    ClaimedOutputsSpent(pool, t1);
    UnauthorizedClaimInvalid(ApplyTx(pool, t1, ClaimedIndex), t2, ext, k);
  }

  /**
    An identifier absent from the pool stays absent through a whole pass
    when no candidate carries its hash, so none can recreate it.
   */
  lemma {:induction false} AbsentStaysAbsent(pool: Pool, txs: seq<Transaction>, valid: Validity, rule: RemovalKey, u: Utxo)
    requires u !in pool
    requires forall m :: 0 <= m < |txs| ==> txs[m].hash != u.txHash
    ensures u !in HandleBatch(pool, txs, valid, rule).pool
  {
    if txs != [] {
      var prev := HandleBatch(pool, txs[..|txs| - 1], valid, rule);
      AbsentStaysAbsent(pool, txs[..|txs| - 1], valid, rule, u);
      ApplyTxEffect(prev.pool, txs[|txs| - 1], rule, u);
    }
  }

  /**
    Corrected, over a whole batch: once the candidate at position p is
    accepted, a later candidate at position q that claims an output the
    candidate at p claimed, at any input positions, is rejected, provided
    no candidate from p up to q recreates that output under its own hash.
   */
  lemma LaterConflictingClaimRejected(pool: Pool, txs: seq<Transaction>, ext: Externals, p: nat, q: nat, i: nat, k: nat)
    requires p < q < |txs|
    requires i < |txs[p].inputs| && k < |txs[q].inputs|
    requires ClaimOf(txs[p].inputs[i]) == ClaimOf(txs[q].inputs[k])
    requires forall m :: p <= m < q ==> txs[m].hash != ClaimOf(txs[p].inputs[i]).txHash
    requires AcceptedAtTurn(pool, txs, p, Validator(ext), ClaimedIndex)
    ensures !AcceptedAtTurn(pool, txs, q, Validator(ext), ClaimedIndex)
  {
    var valid, u := Validator(ext), ClaimOf(txs[p].inputs[i]);
    var first, rest := txs[..p + 1], txs[p + 1..q];
    assert first[..p] == txs[..p];
    var after := ApplyTx(PoolAtTurn(pool, txs, p, valid, ClaimedIndex), txs[p], ClaimedIndex);
    assert HandleBatch(pool, first, valid, ClaimedIndex).pool == after;
    ClaimedOutputsSpent(PoolAtTurn(pool, txs, p, valid, ClaimedIndex), txs[p]);
    assert u !in after;
    forall m | 0 <= m < |rest| ensures rest[m].hash != u.txHash {
      assert rest[m] == txs[p + 1 + m];
    }
    AbsentStaysAbsent(after, rest, valid, ClaimedIndex, u);
    BatchesCompose(pool, first, rest, valid, ClaimedIndex);
    assert first + rest == txs[..q];
    UnauthorizedClaimInvalid(PoolAtTurn(pool, txs, q, valid, ClaimedIndex), txs[q], ext, k);
  }

  /** Corrected: the batch [FirstSpend, SecondSpend] accepts only FirstSpend. */
  lemma DoubleSpendCorrected()
    ensures HandleBatch(Funding(), [FirstSpend(), SecondSpend()], Validator(AcceptAll()), ClaimedIndex).accepted == [FirstSpend()]
  {
    var t1, ext := FirstSpend(), AcceptAll();
    assert Authorized(Funding(), t1, 0, ext);
    SingleSpendValidIff(Funding(), t1, ext);
    ConflictingClaimsFirstWins(Funding(), t1, SecondSpend(), ext, 0, 0);
  }
}

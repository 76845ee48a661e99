/**
  Concrete consequences of the acceptance rule: fees, conflicting spends,
  chained spends within one batch, and the effect of keying removals by the
  input's position.
 */
module Scenarios {
  import opened Ledger
  import opened Batch

  /**
    A transaction with one signed input and one non-negative output is valid
    exactly when the claimed value covers the output: an equal amount or a
    surplus (an implicit fee) is accepted, a deficit is not.
   */
  lemma SingleSpendValidIff(pool: Pool, tx: Transaction, ext: Externals)
    requires |tx.inputs| == 1 && |tx.outputs| == 1
    requires Authorized(pool, tx, 0, ext)
    requires tx.outputs[0].value >= 0
    ensures ValidTx(pool, tx, ext) <==> pool[ClaimOf(tx.inputs[0])].value >= tx.outputs[0].value
  {
    ClaimSetSize(tx.inputs);
    assert tx.inputs[..0] == [] && tx.outputs[..0] == [];
    assert ClaimedValue(pool, tx.inputs) == pool[ClaimOf(tx.inputs[0])].value;
    assert TotalValue(tx.outputs) == tx.outputs[0].value;
  }

  /** Both transactions have a single input, and it claims `u`. */
  predicate BothSpendOnly(t1: Transaction, t2: Transaction, u: Utxo) {
    |t1.inputs| == 1 && |t2.inputs| == 1 && ClaimOf(t1.inputs[0]) == u && ClaimOf(t2.inputs[0]) == u
  }

  /** A two-candidate batch: the pool after the first turn and the second candidate's verdict. */
  lemma TwoCandidates(pool: Pool, t1: Transaction, t2: Transaction, valid: Validity, rule: RemovalKey)
    requires valid(pool, t1)
    ensures var mid := ApplyTx(pool, t1, rule);
      HandleBatch(pool, [t1, t2], valid, rule)
        == if valid(mid, t2) then Outcome(ApplyTx(mid, t2, rule), [t1, t2]) else Outcome(mid, [t1])
  {
    assert [t1][..0] == [];
    assert HandleBatch(pool, [t1], valid, rule) == Step(Outcome(pool, []), t1, valid, rule);
    assert [t1, t2][..1] == [t1];
    assert HandleBatch(pool, [t1, t2], valid, rule) == Step(HandleBatch(pool, [t1], valid, rule), t2, valid, rule);
  }

  /**
    Two candidates that each spend the same output (hash h, index 0) as
    their only input: whichever comes first is accepted and the other is
    rejected, because the first one's acceptance removed the output.
   */
  lemma ConflictingSpendsFirstWins(pool: Pool, t1: Transaction, t2: Transaction, ext: Externals, h: Bytes)
    requires BothSpendOnly(t1, t2, Utxo(h, 0))
    requires ValidTx(pool, t1, ext) && ValidTx(pool, t2, ext)
    requires t1.hash != h && t2.hash != h
    ensures HandleBatch(pool, [t1, t2], Validator(ext), InputPosition).accepted == [t1]
    ensures HandleBatch(pool, [t2, t1], Validator(ext), InputPosition).accepted == [t2]
  {
    TwoCandidates(pool, t1, t2, Validator(ext), InputPosition);
    TwoCandidates(pool, t2, t1, Validator(ext), InputPosition);
    ApplyTxEffect(pool, t1, InputPosition, Utxo(h, 0));
    ApplyTxEffect(pool, t2, InputPosition, Utxo(h, 0));
    assert ConsumedKey(t1, 0, InputPosition) == Utxo(h, 0);
    assert ConsumedKey(t2, 0, InputPosition) == Utxo(h, 0);
    UnauthorizedClaimInvalid(ApplyTx(pool, t1, InputPosition), t2, ext, 0);
    UnauthorizedClaimInvalid(ApplyTx(pool, t2, InputPosition), t1, ext, 0);
  }

  /** The one-input, one-output transaction `hash` that moves output (from, 0) to `out`. */
  function Transfer(hash: Bytes, from: Bytes, sig: Bytes, out: Output): Transaction {
    Transaction(hash, [Input(from, 0, sig)], [out])
  }

  /** Accepting a one-input, one-output transaction under the source's rule. */
  lemma ApplySingle(pool: Pool, tx: Transaction)
    requires |tx.inputs| == 1 && |tx.outputs| == 1
    ensures ApplyTx(pool, tx, InputPosition) == (pool - {Utxo(tx.inputs[0].prevTxHash, 0)})[Utxo(tx.hash, 0) := tx.outputs[0]]
  {
    assert ConsumedUpTo(tx, 0, InputPosition) == {};
    assert ConsumedKeys(tx, InputPosition) == ConsumedUpTo(tx, 1, InputPosition) == {Utxo(tx.inputs[0].prevTxHash, 0)};
    assert ProducedUpTo(tx, 0) == map[];
    assert ProducedEntries(tx) == ProducedUpTo(tx, 1) == map[Utxo(tx.hash, 0) := tx.outputs[0]];
  }

  /**
    Chained spends in one batch: t1 moves output (h0, 0), worth 10 and owned
    by a, to b; t2 then moves t1's new output (h1, 0) to c. In the order
    [t1, t2] both are accepted and only t2's output remains.
   */
  lemma ChainedSpendsInOrder(ext: Externals, h0: Bytes, h1: Bytes, h2: Bytes, a: PublicKey, b: PublicKey, c: PublicKey,
                             s1: Bytes, s2: Bytes)
    requires ext.verifySignature(a, ext.rawDataToSign(Transfer(h1, h0, s1, Output(10, b)), 0), s1)
    requires ext.verifySignature(b, ext.rawDataToSign(Transfer(h2, h1, s2, Output(10, c)), 0), s2)
    ensures var t1, t2 := Transfer(h1, h0, s1, Output(10, b)), Transfer(h2, h1, s2, Output(10, c));
      HandleBatch(map[Utxo(h0, 0) := Output(10, a)], [t1, t2], Validator(ext), InputPosition)
        == Outcome(map[Utxo(h2, 0) := Output(10, c)], [t1, t2])
  {
    var pool := map[Utxo(h0, 0) := Output(10, a)];
    var t1, t2 := Transfer(h1, h0, s1, Output(10, b)), Transfer(h2, h1, s2, Output(10, c));
    var mid := map[Utxo(h1, 0) := Output(10, b)];
    SingleSpendValidIff(pool, t1, ext);
    ApplySingle(pool, t1);
    assert (pool - {Utxo(h0, 0)})[Utxo(h1, 0) := Output(10, b)] == mid;
    SingleSpendValidIff(mid, t2, ext);
    ApplySingle(mid, t2);
    assert (mid - {Utxo(h1, 0)})[Utxo(h2, 0) := Output(10, c)] == map[Utxo(h2, 0) := Output(10, c)];
    TwoCandidates(pool, t1, t2, Validator(ext), InputPosition);
  }

  /**
    The same two transfers in the order [t2, t1]: t2 comes first and finds
    nothing to spend, so it is skipped; t1 is still valid on its own and is
    accepted.
   */
  lemma ChainedSpendsOutOfOrder(ext: Externals, h0: Bytes, h1: Bytes, h2: Bytes, a: PublicKey, b: PublicKey, c: PublicKey,
                                s1: Bytes, s2: Bytes)
    requires h0 != h1
    requires ext.verifySignature(a, ext.rawDataToSign(Transfer(h1, h0, s1, Output(10, b)), 0), s1)
    ensures var t1, t2 := Transfer(h1, h0, s1, Output(10, b)), Transfer(h2, h1, s2, Output(10, c));
      HandleBatch(map[Utxo(h0, 0) := Output(10, a)], [t2, t1], Validator(ext), InputPosition)
        == Outcome(map[Utxo(h1, 0) := Output(10, b)], [t1])
  {
    var pool := map[Utxo(h0, 0) := Output(10, a)];
    var t1, t2 := Transfer(h1, h0, s1, Output(10, b)), Transfer(h2, h1, s2, Output(10, c));
    UnauthorizedClaimInvalid(pool, t2, ext, 0);
    assert [t2][..0] == [];
    assert HandleBatch(pool, [t2], Validator(ext), InputPosition) == Outcome(pool, []);
    assert [t2, t1][..1] == [t2];
    assert HandleBatch(pool, [t2, t1], Validator(ext), InputPosition) == Step(Outcome(pool, []), t1, Validator(ext), InputPosition);
    SingleSpendValidIff(pool, t1, ext);
    ApplySingle(pool, t1);
    assert (pool - {Utxo(h0, 0)})[Utxo(h1, 0) := Output(10, b)] == map[Utxo(h1, 0) := Output(10, b)];
  }
}

/**
  TxHandler: owns a private copy of the unspent-output pool, checks single
  transactions against it and applies a batch greedily, in order.
 */
module Handler {
  import opened Ledger
  import opened Batch
  import opened UtxoPools

  class TxHandler {
    /** The handler's own pool: a fresh copy that no caller refers to. */
    const utxoPool: UtxoPool
    /** Signature verification and signed payloads, supplied from outside. */
    const ext: Externals

    /** Stores a copy of `pool`, so that later batches never change the caller's pool. */
    constructor (pool: UtxoPool, ext: Externals)
      ensures fresh(utxoPool)
      ensures utxoPool.entries == pool.entries
      ensures this.ext == ext
    {
      utxoPool := new UtxoPool.Copy(pool);
      this.ext := ext;
    }

    /**
      isValidTx: decides ValidTx against the current pool. It only reads the
      pool (no modifies clause), so the pool is the same after the call.
     */
    method IsValidTx(tx: Transaction) returns (valid: bool)
      ensures valid == ValidTx(utxoPool.entries, tx, ext)
    {
      var pool := utxoPool.entries;
      var inputSum := 0;
      var outputSum := 0;
      var uniqueInputs: set<Utxo> := {};
      for i := 0 to |tx.inputs|
        invariant uniqueInputs == ClaimSet(tx.inputs[..i])
      {
        assert tx.inputs[..i + 1][..i] == tx.inputs[..i];
        uniqueInputs := uniqueInputs + {ClaimOf(tx.inputs[i])};
      }
      assert tx.inputs[..|tx.inputs|] == tx.inputs;
      if |uniqueInputs| != |tx.inputs| {
        return false;
      }
      for j := 0 to |tx.outputs|
        invariant NonNegativeOutputs(tx.outputs[..j])
        invariant outputSum == TotalValue(tx.outputs[..j])
      {
        if tx.outputs[j].value < 0 {
          NegativeOutputInvalid(pool, tx, ext, j);
          return false;
        }
        TotalValueStep(tx.outputs, j);
        outputSum := outputSum + tx.outputs[j].value;
      }
      assert tx.outputs[..|tx.outputs|] == tx.outputs;
      for i := 0 to |tx.inputs|
        invariant forall k :: 0 <= k < i ==> Authorized(pool, tx, k, ext)
        invariant AllClaimsPresent(pool, tx.inputs[..i])
        invariant inputSum == ClaimedValue(pool, tx.inputs[..i])
      {
        var claim := ClaimOf(tx.inputs[i]);
        if claim in pool {
          var claimed := pool[claim];
          if ext.verifySignature(claimed.address, ext.rawDataToSign(tx, i), tx.inputs[i].signature) {
            ClaimedValueStep(pool, tx.inputs, i);
            inputSum := inputSum + claimed.value;
          } else {
            UnauthorizedClaimInvalid(pool, tx, ext, i);
            return false;
          }
        } else {
          UnauthorizedClaimInvalid(pool, tx, ext, i);
          return false;
        }
      }
      assert tx.inputs[..|tx.inputs|] == tx.inputs;
      if inputSum < outputSum {
        return false;
      }
      return true;
    }

    /**
      handleTxs: walks `possibleTxs` in order and accepts each candidate that
      is valid against the pool as it stands; returns the accepted candidates
      in order.
     */
    method HandleTxs(possibleTxs: seq<Transaction>) returns (accepted: seq<Transaction>)
      modifies utxoPool
      ensures HandleBatch(old(utxoPool.entries), possibleTxs, Validator(ext), InputPosition)
        == Outcome(utxoPool.entries, accepted)
    {
      ghost var start := utxoPool.entries;
      accepted := [];
      for t := 0 to |possibleTxs|
        invariant HandleBatch(start, possibleTxs[..t], Validator(ext), InputPosition) == Outcome(utxoPool.entries, accepted)
      {
        assert possibleTxs[..t + 1][..t] == possibleTxs[..t];
        var trans := possibleTxs[t];
        var valid := IsValidTx(trans);
        if !valid {
          continue;
        }
        Commit(trans);
        accepted := accepted + [trans];
      }
      assert possibleTxs[..|possibleTxs|] == possibleTxs;
    }

    /**
      The body of handleTxs for an accepted candidate: removes the key
      (prevTxHash, input position) of every input, then adds every output
      under (hash, output position).
     */
    method Commit(trans: Transaction)
      modifies utxoPool
      ensures utxoPool.entries == ApplyTx(old(utxoPool.entries), trans, InputPosition)
    {
      for i := 0 to |trans.inputs|
        invariant utxoPool.entries == old(utxoPool.entries) - ConsumedUpTo(trans, i, InputPosition)
      {
        utxoPool.RemoveUtxo(Utxo(trans.inputs[i].prevTxHash, i));
      }
      ghost var removed := utxoPool.entries;
      for j := 0 to |trans.outputs|
        invariant utxoPool.entries == removed + ProducedUpTo(trans, j)
      {
        assert removed + ProducedUpTo(trans, j + 1)
          == (removed + ProducedUpTo(trans, j))[Utxo(trans.hash, j) := trans.outputs[j]];
        utxoPool.AddUtxo(Utxo(trans.hash, j), trans.outputs[j]);
      }
    }
  }

  /**
    A caller that hands its pool to a new handler and runs a batch still
    holds its pool unchanged: the handler works on its own copy.
   */
  method HandlerLeavesCallerPool(pool: UtxoPool, ext: Externals, possibleTxs: seq<Transaction>)
    returns (accepted: seq<Transaction>)
    ensures pool.entries == old(pool.entries)
    ensures accepted == HandleBatch(pool.entries, possibleTxs, Validator(ext), InputPosition).accepted
  {
    var handler := new TxHandler(pool, ext);
    accepted := handler.HandleTxs(possibleTxs);
  }
}

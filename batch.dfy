/**
  What accepting transactions does to the pool (TxHandler.handleTxs), as
  functions on values: the effect of one accepted transaction, and the greedy
  left-to-right pass over a batch.
 */
module Batch {
  import opened Ledger

  /**
    Which identifier acceptance removes for input `i`. The source removes
    (prevTxHash, i), keyed by the input's position; the output the input
    claims is (prevTxHash, outputIndex).
   */
  datatype RemovalKey = InputPosition | ClaimedIndex

  function ConsumedKey(tx: Transaction, i: nat, rule: RemovalKey): Utxo
    requires i < |tx.inputs|
  {
    match rule
    case InputPosition => Utxo(tx.inputs[i].prevTxHash, i)
    case ClaimedIndex => ClaimOf(tx.inputs[i])
  }

  /** The identifiers removed for the first `n` inputs of `tx`, one removeUTXO at a time. */
  function ConsumedUpTo(tx: Transaction, n: nat, rule: RemovalKey): set<Utxo>
    requires n <= |tx.inputs|
  {
    if n == 0 then {} else ConsumedUpTo(tx, n - 1, rule) + {ConsumedKey(tx, n - 1, rule)}
  }

  /** The identifiers removed from the pool when `tx` is accepted. */
  function ConsumedKeys(tx: Transaction, rule: RemovalKey): set<Utxo> {
    ConsumedUpTo(tx, |tx.inputs|, rule)
  }

  /** `u` is removed for one of the first `n` inputs exactly when it is the key of one of them. */
  lemma {:induction false} ConsumedUpToMembers(tx: Transaction, n: nat, rule: RemovalKey, u: Utxo)
    requires n <= |tx.inputs|
    ensures u in ConsumedUpTo(tx, n, rule) <==> exists i :: 0 <= i < n && ConsumedKey(tx, i, rule) == u
  {
    if n > 0 {
      ConsumedUpToMembers(tx, n - 1, rule, u);
    }
  }

  /** The entries added for the first `n` outputs of `tx`, one addUTXO at a time: output `j` under (tx.hash, j). */
  function ProducedUpTo(tx: Transaction, n: nat): Pool
    requires n <= |tx.outputs|
  {
    if n == 0 then map[] else ProducedUpTo(tx, n - 1)[Utxo(tx.hash, n - 1) := tx.outputs[n - 1]]
  }

  /** The entries added when `tx` is accepted. */
  function ProducedEntries(tx: Transaction): Pool {
    ProducedUpTo(tx, |tx.outputs|)
  }

  /** The first `n` outputs are added under (tx.hash, 0) .. (tx.hash, n - 1), and nothing else is. */
  lemma {:induction false} ProducedUpToMembers(tx: Transaction, n: nat, u: Utxo)
    requires n <= |tx.outputs|
    ensures u in ProducedUpTo(tx, n) <==> u.txHash == tx.hash && 0 <= u.index < n
    ensures u in ProducedUpTo(tx, n) ==> ProducedUpTo(tx, n)[u] == tx.outputs[u.index]
  {
    if n > 0 {
      ProducedUpToMembers(tx, n - 1, u);
    }
  }

  /** The pool after accepting `tx`: consumed keys removed first, then the new outputs added. */
  function ApplyTx(pool: Pool, tx: Transaction, rule: RemovalKey): Pool {
    (pool - ConsumedKeys(tx, rule)) + ProducedEntries(tx)
  }

  /**
    The whole effect of accepting `tx` on one identifier `u`: it is present
    afterwards exactly when it is one of the new outputs, or was present and
    is not a consumed key; a new output maps to that output, and any other
    surviving identifier keeps its old output.
   */
  lemma ApplyTxEffect(pool: Pool, tx: Transaction, rule: RemovalKey, u: Utxo)
    ensures var produced := u.txHash == tx.hash && 0 <= u.index < |tx.outputs|;
      && (u in ApplyTx(pool, tx, rule) <==>
            produced || (u in pool && forall i :: 0 <= i < |tx.inputs| ==> ConsumedKey(tx, i, rule) != u))
      && (produced ==> ApplyTx(pool, tx, rule)[u] == tx.outputs[u.index])
      && (!produced && u in ApplyTx(pool, tx, rule) ==> ApplyTx(pool, tx, rule)[u] == pool[u])
  {
    ConsumedUpToMembers(tx, |tx.inputs|, rule, u);
    ProducedUpToMembers(tx, |tx.outputs|, u);
  }

  /** A verdict on a candidate against a pool; the handler's is Validator(ext). */
  type Validity = (Pool, Transaction) -> bool

  /** The state a batch pass reaches: the pool and the transactions accepted so far, in order. */
  datatype Outcome = Outcome(pool: Pool, accepted: seq<Transaction>)

  /** One turn of the pass: accept `tx` if it is valid against the current pool, otherwise skip it. */
  function Step(o: Outcome, tx: Transaction, valid: Validity, rule: RemovalKey): Outcome {
    if valid(o.pool, tx) then Outcome(ApplyTx(o.pool, tx, rule), o.accepted + [tx]) else o
  }

  /** The greedy pass over `txs`, left to right, starting from `pool`. */
  function HandleBatch(pool: Pool, txs: seq<Transaction>, valid: Validity, rule: RemovalKey): Outcome {
    if txs == [] then Outcome(pool, [])
    else Step(HandleBatch(pool, txs[..|txs| - 1], valid, rule), txs[|txs| - 1], valid, rule)
  }

  /** The pool as it stands when candidate `i` has its turn. */
  function PoolAtTurn(pool: Pool, txs: seq<Transaction>, i: nat, valid: Validity, rule: RemovalKey): Pool
    requires i <= |txs|
  {
    HandleBatch(pool, txs[..i], valid, rule).pool
  }

  /** The candidate at position `n` of `txs` is valid against the pool at its turn. */
  predicate AcceptedAtTurn(pool: Pool, txs: seq<Transaction>, n: nat, valid: Validity, rule: RemovalKey)
    requires n < |txs|
  {
    valid(PoolAtTurn(pool, txs, n, valid, rule), txs[n])
  }

  /** The positions in `txs` of the candidates the pass accepts, in increasing order. */
  function AcceptedPositions(pool: Pool, txs: seq<Transaction>, valid: Validity, rule: RemovalKey): seq<nat> {
    if txs == [] then []
    else
      var n := |txs| - 1;
      AcceptedPositions(pool, txs[..n], valid, rule) + (if AcceptedAtTurn(pool, txs, n, valid, rule) then [n] else [])
  }

  /** Turns before `n` are the same in `txs` and in its prefix of length `n`. */
  lemma PrefixTurns(pool: Pool, txs: seq<Transaction>, n: nat, valid: Validity, rule: RemovalKey)
    requires n <= |txs|
    ensures forall i :: 0 <= i < n ==> AcceptedAtTurn(pool, txs[..n], i, valid, rule) == AcceptedAtTurn(pool, txs, i, valid, rule)
  {
    forall i | 0 <= i < n
      ensures AcceptedAtTurn(pool, txs[..n], i, valid, rule) == AcceptedAtTurn(pool, txs, i, valid, rule)
    {
      assert txs[..n][..i] == txs[..i];
    }
  }

  /**
    The pass returns a subsequence of `txs` in the original order: the
    candidates at AcceptedPositions, and a candidate is among them exactly
    when it is valid against the pool left by the acceptances before it.
   */
  lemma {:induction false} BatchIsGreedySubsequence(pool: Pool, txs: seq<Transaction>, valid: Validity, rule: RemovalKey)
    ensures var acc, pos := HandleBatch(pool, txs, valid, rule).accepted, AcceptedPositions(pool, txs, valid, rule);
      && |pos| == |acc|
      && (forall k :: 0 <= k < |pos| ==> pos[k] < |txs| && acc[k] == txs[pos[k]])
      && (forall k, l :: 0 <= k < l < |pos| ==> pos[k] < pos[l])
      && (forall i :: 0 <= i < |txs| ==> (i in pos <==> AcceptedAtTurn(pool, txs, i, valid, rule)))
  {
    if txs != [] {
      var n := |txs| - 1;
      var init := txs[..n];
      BatchIsGreedySubsequence(pool, init, valid, rule);
      PrefixTurns(pool, txs, n, valid, rule);
      assert HandleBatch(pool, txs, valid, rule) == Step(HandleBatch(pool, init, valid, rule), txs[n], valid, rule);
      assert PoolAtTurn(pool, txs, n, valid, rule) == HandleBatch(pool, init, valid, rule).pool;
    }
  }

  /** Accepting each of `txs` in turn, without checking validity. */
  function ApplyAll(pool: Pool, txs: seq<Transaction>, rule: RemovalKey): Pool {
    if txs == [] then pool else ApplyTx(ApplyAll(pool, txs[..|txs| - 1], rule), txs[|txs| - 1], rule)
  }

  /** The pool a pass leaves is the accepted transactions applied in order. */
  lemma {:induction false} BatchPoolIsAcceptedApplied(pool: Pool, txs: seq<Transaction>, valid: Validity, rule: RemovalKey)
    ensures var o := HandleBatch(pool, txs, valid, rule);
      o.pool == ApplyAll(pool, o.accepted, rule)
  {
    if txs != [] {
      var prev := HandleBatch(pool, txs[..|txs| - 1], valid, rule);
      BatchPoolIsAcceptedApplied(pool, txs[..|txs| - 1], valid, rule);
      var tx := txs[|txs| - 1];
      if valid(prev.pool, tx) {
        assert (prev.accepted + [tx])[..|prev.accepted|] == prev.accepted;
      }
    }
  }

  /**
    The accepted transactions are mutually valid: each one is valid against
    the pool left by applying the accepted ones before it, in order.
   */
  lemma {:induction false} AcceptedAreMutuallyValid(pool: Pool, txs: seq<Transaction>, valid: Validity, rule: RemovalKey)
    ensures var acc := HandleBatch(pool, txs, valid, rule).accepted;
      forall k :: 0 <= k < |acc| ==> valid(ApplyAll(pool, acc[..k], rule), acc[k])
  {
    if txs != [] {
      var prev := HandleBatch(pool, txs[..|txs| - 1], valid, rule);
      AcceptedAreMutuallyValid(pool, txs[..|txs| - 1], valid, rule);
      var tx := txs[|txs| - 1];
      if valid(prev.pool, tx) {
        var acc := prev.accepted + [tx];
        assert HandleBatch(pool, txs, valid, rule).accepted == acc;
        BatchPoolIsAcceptedApplied(pool, txs[..|txs| - 1], valid, rule);
        forall k | 0 <= k < |acc| ensures valid(ApplyAll(pool, acc[..k], rule), acc[k]) {
          if k < |prev.accepted| {
            assert acc[..k] == prev.accepted[..k] && acc[k] == prev.accepted[k];
          } else {
            assert acc[..k] == prev.accepted && acc[k] == tx;
          }
        }
      }
    }
  }

  /**
    Two successive passes on the same pool (the second starting from the
    pool the first leaves) accept and produce the same as one pass over the
    concatenated batch: acceptance is commit, and nothing is rolled back.
   */
  lemma {:induction false} BatchesCompose(pool: Pool, first: seq<Transaction>, second: seq<Transaction>, valid: Validity, rule: RemovalKey)
    ensures var o1 := HandleBatch(pool, first, valid, rule);
      var o2 := HandleBatch(o1.pool, second, valid, rule);
      HandleBatch(pool, first + second, valid, rule) == Outcome(o2.pool, o1.accepted + o2.accepted)
  {
    if second == [] {
      assert first + second == first;
    } else {
      var n := |second| - 1;
      BatchesCompose(pool, first, second[..n], valid, rule);
      assert (first + second)[..|first + second| - 1] == first + second[..n];
    }
  }
}

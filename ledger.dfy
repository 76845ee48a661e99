/**
  The ledger's values: unspent-output identifiers, outputs, inputs and
  transactions, and the rule that decides whether one transaction may be
  accepted against a pool of unspent outputs (TxHandler.isValidTx).
 */
module Ledger {

  type Bytes = seq<bv8>

  /** An owner's public key, as the signature verifier receives it. */
  type PublicKey = Bytes

  /** Identifies one output of one transaction: its hash and its position. */
  datatype Utxo = Utxo(txHash: Bytes, index: int)

  /** A spendable amount and the key that may spend it (Java's double modelled as int). */
  datatype Output = Output(value: int, address: PublicKey)

  /** A claim on the output `outputIndex` of transaction `prevTxHash`, with its signature. */
  datatype Input = Input(prevTxHash: Bytes, outputIndex: int, signature: Bytes)

  datatype Transaction = Transaction(hash: Bytes, inputs: seq<Input>, outputs: seq<Output>)

  /** The unspent outputs: at most one Output per identifier. */
  type Pool = map<Utxo, Output>

  /**
    The collaborators whose code is not part of this model: the signature
    check `Crypto.verifySignature(address, message, signature)` and the
    payload `tx.getRawDataToSign(i)` that the signature of input `i` covers.
    Both are deterministic and free of side effects.
   */
  datatype Externals = Externals(
    verifySignature: (PublicKey, Bytes, Bytes) -> bool,
    rawDataToSign: (Transaction, nat) -> Bytes)

  /** The output an input claims. */
  function ClaimOf(inp: Input): Utxo {
    Utxo(inp.prevTxHash, inp.outputIndex)
  }

  /** The set of claims of `ins`, built one input at a time as the source builds its HashSet. */
  function ClaimSet(ins: seq<Input>): set<Utxo> {
    if ins == [] then {} else ClaimSet(ins[..|ins| - 1]) + {ClaimOf(ins[|ins| - 1])}
  }

  /** Every claim of `ins` is in ClaimSet(ins), and nothing else is. */
  lemma {:induction false} ClaimSetMembers(ins: seq<Input>, u: Utxo)
    ensures u in ClaimSet(ins) <==> exists i :: 0 <= i < |ins| && ClaimOf(ins[i]) == u
  {
    if ins != [] {
      var init := ins[..|ins| - 1];
      ClaimSetMembers(init, u);
      if u in ClaimSet(init) {
        var i :| 0 <= i < |init| && ClaimOf(init[i]) == u;
        assert ins[i] == init[i];
      }
      if exists i :: 0 <= i < |ins| && ClaimOf(ins[i]) == u {
        var i :| 0 <= i < |ins| && ClaimOf(ins[i]) == u;
        if i < |init| {
          assert ins[i] == init[i];
        }
      }
    }
  }

  /** No two inputs claim the same output. */
  predicate DistinctClaims(ins: seq<Input>) {
    forall i, j :: 0 <= i < j < |ins| ==> ClaimOf(ins[i]) != ClaimOf(ins[j])
  }

  /** The HashSet of claims has one element per input exactly when the claims are distinct. */
  lemma {:induction false} ClaimSetSize(ins: seq<Input>)
    ensures |ClaimSet(ins)| <= |ins|
    ensures |ClaimSet(ins)| == |ins| <==> DistinctClaims(ins)
  {
    if ins != [] {
      var init, last := ins[..|ins| - 1], ins[|ins| - 1];
      var s0 := ClaimSet(init);
      assert ClaimSet(ins) == s0 + {ClaimOf(last)};
      ClaimSetSize(init);
      if ClaimOf(last) in s0 {
        assert ClaimSet(ins) == s0;
        ClaimSetMembers(init, ClaimOf(last));
        var i :| 0 <= i < |init| && ClaimOf(init[i]) == ClaimOf(last);
        assert ins[i] == init[i];
        assert !DistinctClaims(ins);
      } else {
        assert |ClaimSet(ins)| == |s0| + 1;
        if DistinctClaims(init) {
          forall i, j | 0 <= i < j < |ins| ensures ClaimOf(ins[i]) != ClaimOf(ins[j]) {
            assert ins[i] == init[i];
            if j < |ins| - 1 {
              assert ins[j] == init[j];
            } else {
              ClaimSetMembers(init, ClaimOf(init[i]));
            }
          }
        } else {
          var i, j :| 0 <= i < j < |init| && ClaimOf(init[i]) == ClaimOf(init[j]);
          assert ins[i] == init[i] && ins[j] == init[j];
          assert !DistinctClaims(ins);
        }
      }
    }
  }

  /** Every output value is non-negative. */
  predicate NonNegativeOutputs(outs: seq<Output>) {
    forall j :: 0 <= j < |outs| ==> outs[j].value >= 0
  }

  /** Every input claims an output that is in `pool`. */
  predicate AllClaimsPresent(pool: Pool, ins: seq<Input>) {
    forall i :: 0 <= i < |ins| ==> ClaimOf(ins[i]) in pool
  }

  /**
    Input `i` of `tx` claims an output present in `pool`, and the verifier
    accepts its signature for the claimed output's owner over the payload of input `i`.
   */
  predicate Authorized(pool: Pool, tx: Transaction, i: nat, ext: Externals)
    requires i < |tx.inputs|
  {
    var claim := ClaimOf(tx.inputs[i]);
    claim in pool && ext.verifySignature(pool[claim].address, ext.rawDataToSign(tx, i), tx.inputs[i].signature)
  }

  predicate AllAuthorized(pool: Pool, tx: Transaction, ext: Externals) {
    forall i :: 0 <= i < |tx.inputs| ==> Authorized(pool, tx, i, ext)
  }

  /** Sum of the values of `outs`. */
  function TotalValue(outs: seq<Output>): int {
    if outs == [] then 0 else TotalValue(outs[..|outs| - 1]) + outs[|outs| - 1].value
  }

  /** Sum of the values of the outputs that `ins` claim from `pool`. */
  function ClaimedValue(pool: Pool, ins: seq<Input>): int
    requires AllClaimsPresent(pool, ins)
  {
    if ins == [] then 0
    else
      var init := ins[..|ins| - 1];
      assert forall k :: 0 <= k < |init| ==> init[k] == ins[k];
      ClaimedValue(pool, init) + pool[ClaimOf(ins[|ins| - 1])].value
  }

  /** Extending `outs[..j]` by one non-negative output adds its value. */
  lemma TotalValueStep(outs: seq<Output>, j: nat)
    requires j < |outs| && NonNegativeOutputs(outs[..j]) && outs[j].value >= 0
    ensures NonNegativeOutputs(outs[..j + 1])
    ensures TotalValue(outs[..j + 1]) == TotalValue(outs[..j]) + outs[j].value
  {
    assert outs[..j + 1][..j] == outs[..j];
  }

  /** Extending `ins[..i]` by one present claim adds that claim's value. */
  lemma ClaimedValueStep(pool: Pool, ins: seq<Input>, i: nat)
    requires i < |ins| && AllClaimsPresent(pool, ins[..i]) && ClaimOf(ins[i]) in pool
    ensures AllClaimsPresent(pool, ins[..i + 1])
    ensures ClaimedValue(pool, ins[..i + 1]) == ClaimedValue(pool, ins[..i]) + pool[ClaimOf(ins[i])].value
  {
    assert ins[..i + 1][..i] == ins[..i];
  }

  /**
    TxHandler.isValidTx: the set of claims is as large as the list of inputs,
    no output is negative, every claim is present and signed by its owner,
    and the claimed value covers the output value.
   */
  predicate ValidTx(pool: Pool, tx: Transaction, ext: Externals) {
    && |ClaimSet(tx.inputs)| == |tx.inputs|
    && NonNegativeOutputs(tx.outputs)
    && AllAuthorized(pool, tx, ext)
    && AllClaimsPresent(pool, tx.inputs)
    && ClaimedValue(pool, tx.inputs) >= TotalValue(tx.outputs)
  }

  /** ValidTx with its collaborators fixed: the check the batch pass applies to each candidate. */
  function Validator(ext: Externals): (Pool, Transaction) -> bool {
    (pool: Pool, tx: Transaction) => ValidTx(pool, tx, ext)
  }

  /**
    The four conditions of the documentation, stated independently: a
    transaction is valid exactly when its claims are distinct, its outputs
    non-negative, every claim present and authorized, and the value it claims
    at least the value it creates.
   */
  lemma ValidTxIff(pool: Pool, tx: Transaction, ext: Externals)
    ensures ValidTx(pool, tx, ext) <==>
      && DistinctClaims(tx.inputs)
      && NonNegativeOutputs(tx.outputs)
      && AllAuthorized(pool, tx, ext)
      && AllClaimsPresent(pool, tx.inputs)
      && ClaimedValue(pool, tx.inputs) >= TotalValue(tx.outputs)
  {
    ClaimSetSize(tx.inputs);
    if AllAuthorized(pool, tx, ext) {
      forall i | 0 <= i < |tx.inputs| ensures ClaimOf(tx.inputs[i]) in pool {
        assert Authorized(pool, tx, i, ext);
      }
    }
  }

  /** Two inputs claiming the same output make the transaction invalid, whatever else it holds. */
  lemma DuplicateClaimInvalid(pool: Pool, tx: Transaction, ext: Externals, i: nat, j: nat)
    requires i < j < |tx.inputs|
    requires ClaimOf(tx.inputs[i]) == ClaimOf(tx.inputs[j])
    ensures !ValidTx(pool, tx, ext)
  {
    ClaimSetSize(tx.inputs);
  }

  /** A negative output makes the transaction invalid. */
  lemma NegativeOutputInvalid(pool: Pool, tx: Transaction, ext: Externals, j: nat)
    requires j < |tx.outputs| && tx.outputs[j].value < 0
    ensures !ValidTx(pool, tx, ext)
  {
  }

  /** A claim missing from the pool, or a signature the verifier rejects, makes the transaction invalid. */
  lemma UnauthorizedClaimInvalid(pool: Pool, tx: Transaction, ext: Externals, i: nat)
    requires i < |tx.inputs|
    requires var claim := ClaimOf(tx.inputs[i]);
      claim !in pool ||
      !ext.verifySignature(pool[claim].address, ext.rawDataToSign(tx, i), tx.inputs[i].signature)
    ensures !ValidTx(pool, tx, ext)
  {
    assert !Authorized(pool, tx, i, ext);
  }
}

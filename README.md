# Scrooge-coin transaction handler in Dafny

This project models the ledger core of scrooge-coin: `TxHandler`, which keeps a
private pool of unspent transaction outputs (UTXOs) and uses it for two jobs.
It decides whether one transaction may be accepted (`isValidTx`). It also walks a
batch of candidate transactions in order and accepts each one that is valid
against the pool as it stands (`handleTxs`). Accepting a transaction removes
the outputs it consumes and adds the outputs it creates.

Layout:

- `ledger.dfy` (module `Ledger`) holds the values. `Utxo` is a (hash, index)
  pair. `Output`, `Input` and `Transaction` are plain records, and `Pool` is a
  `map<Utxo, Output>`. The module also holds the validity rule `ValidTx`, which
  follows `isValidTx` check by check: the set of claims is as large as the list
  of inputs, no output is negative, every claim is present and signed, and the
  claimed value covers the output value.
- `batch.dfy` (module `Batch`) states acceptance on values. `ApplyTx` is the
  effect of one accepted transaction. `HandleBatch` is the greedy
  left-to-right pass. `RemovalKey` names the identifier that acceptance removes
  for input `i`. `InputPosition` is what the source does:
  `(prevTxHash, i)`. `ClaimedIndex` is the claimed output:
  `(prevTxHash, outputIndex)`. The batch lemmas hold for both, and for any
  validity rule passed in as a `Validity` function; the handler uses
  `Validator(ext)`, which is `ValidTx` with the given externals.
- `utxo_pool.dfy` (module `UtxoPools`) holds the class `UtxoPool`, a mutable
  map with the copy constructor, `addUTXO` and `removeUTXO` that the handler
  uses.
- `tx_handler.dfy` (module `Handler`) holds the class `TxHandler`. Its
  constructor copies the caller's pool into a fresh object. `IsValidTx` runs
  the source's three loops and is proved equal to `ValidTx`. `HandleTxs` runs
  the batch loop and is proved to leave the pool and return the accepted
  sequence that `HandleBatch` with `InputPosition` gives. Its helper `Commit`
  runs the removal and insertion loops of an accepted candidate and is proved
  to leave `ApplyTx(old pool, trans, InputPosition)`.
- `scenarios.dfy` (module `Scenarios`) covers fees, conflicting spends and
  chained spends within one batch.
- `findings.dfy` (module `Findings`) covers what removal keyed by input
  position does, and what removal by the claimed identifier guarantees.

Signature verification (`Crypto.verifySignature`) and the signed payload
(`Transaction.getRawDataToSign`) are external code. They are passed in as the
two function fields of `Externals`. Nothing is assumed about them except that
they are deterministic functions.

The two-candidate scenario in which a transfer t2 spends the output of a
transfer t1 but comes first, `[t2, t1]`, does not reject both. t2 finds nothing
to spend and is skipped. t1 is valid on its own and is accepted
(`Scenarios.ChainedSpendsOutOfOrder`). The model follows the code.

## Model

| member | source | states |
|---|---|---|
| `Ledger.ClaimSetMembers` | src/main/java/scrooge/TxHandler.java:35-36 | the set built from the inputs holds exactly the (prevTxHash, outputIndex) pairs the inputs claim |
| `Ledger.ClaimSetSize` | src/main/java/scrooge/TxHandler.java:35-39 | the set of claims is never larger than the input list, and has the same size exactly when no two inputs claim the same output |
| `Ledger.ValidTxIff` | src/main/java/scrooge/TxHandler.java:23-30 | a transaction is valid exactly when its claims are distinct, its outputs non-negative, every claim present in the pool and signed by its owner, and the claimed value at least the output value |
| `Ledger.DuplicateClaimInvalid` | src/main/java/scrooge/TxHandler.java:35-39 | two inputs claiming the same (prevTxHash, outputIndex) make the transaction invalid, whatever its other fields are |
| `Ledger.NegativeOutputInvalid` | src/main/java/scrooge/TxHandler.java:40-43 | an output with a negative value makes the transaction invalid |
| `Ledger.UnauthorizedClaimInvalid` | src/main/java/scrooge/TxHandler.java:46-57 | an input whose claimed output is not in the pool, or whose signature the verifier rejects for the claimed output's owner and the input's payload, makes the transaction invalid |
| `Handler.TxHandler.IsValidTx` | src/main/java/scrooge/TxHandler.java:32-63 | the method's answer equals ValidTx on the current pool; it has no modifies clause, so the pool is unchanged by the call |
| `Handler.TxHandler.constructor` | src/main/java/scrooge/TxHandler.java:19-21 | the handler's pool is a freshly allocated object holding the same entries as the caller's pool |
| `UtxoPools.UtxoPool.Copy` | src/main/java/scrooge/TxHandler.java:20 | the copied pool holds exactly the entries of the original |
| `UtxoPools.UtxoPool.RemoveUtxo` | src/main/java/scrooge/TxHandler.java:78 | the pool afterwards is the old pool without the given identifier, and nothing else changes |
| `UtxoPools.UtxoPool.AddUtxo` | src/main/java/scrooge/TxHandler.java:82 | the pool afterwards maps the given identifier to the given output, and nothing else changes |
| `Handler.TxHandler.HandleTxs` | src/main/java/scrooge/TxHandler.java:70-87 | the returned sequence and the new pool are exactly those of HandleBatch, the greedy in-order pass with removal keyed by input position, run on the old pool |
| `Handler.TxHandler.Commit` | src/main/java/scrooge/TxHandler.java:76-83 | after an accepted candidate the pool is ApplyTx of the old pool: keys (prevTxHash, i) removed for every input position i, then (hash, j) mapped to output j |
| `Handler.HandlerLeavesCallerPool` | src/main/java/scrooge/TxHandler.java:14-21 | a caller that builds a handler from its pool and runs a batch finds its own pool unchanged afterwards |
| `Batch.ConsumedUpToMembers` | src/main/java/scrooge/TxHandler.java:76-79 | after the first n inputs are processed, an identifier has been removed exactly when it is the removal key of one of those n input positions |
| `Batch.ProducedUpToMembers` | src/main/java/scrooge/TxHandler.java:80-83 | after the first n outputs are added, an identifier has been added exactly when it carries the transaction's hash and an index below n, and it maps to the output at that index |
| `Batch.ApplyTxEffect` | src/main/java/scrooge/TxHandler.java:76-83 | after acceptance an identifier is present exactly when it is a new output or was present and is not a removal key; new outputs map to the transaction's outputs, every other surviving key keeps its old output |
| `Batch.BatchIsGreedySubsequence` | src/main/java/scrooge/TxHandler.java:70-86 | the accepted sequence is the candidates at strictly increasing positions, in the original order, and a candidate is accepted exactly when it is valid against the pool left by the acceptances before it |
| `Batch.BatchPoolIsAcceptedApplied` | src/main/java/scrooge/TxHandler.java:70-86 | the pool after a batch is the starting pool with exactly the accepted transactions applied, in the order they were accepted; rejected candidates leave no trace |
| `Batch.AcceptedAreMutuallyValid` | src/main/java/scrooge/TxHandler.java:65-69 | each accepted transaction is valid against the pool left by applying the accepted ones before it |
| `Batch.BatchesCompose` | src/main/java/scrooge/TxHandler.java:70-86 | two successive batches on the handler give the same pool and the same accepted transactions, concatenated, as one batch over the concatenation; nothing is rolled back |
| `Scenarios.SingleSpendValidIff` | src/main/java/scrooge/TxHandler.java:59-62 | with one signed input and one non-negative output, the transaction is valid exactly when the claimed value is at least the output value: equal or surplus accepted, deficit rejected |
| `Scenarios.ConflictingSpendsFirstWins` | src/main/java/scrooge/TxHandler.java:72-84 | of two individually valid candidates whose only input claims the same output (h, 0), whichever comes first is accepted and the other rejected, in either order |
| `Scenarios.ApplySingle` | src/main/java/scrooge/TxHandler.java:76-83 | accepting a one-input, one-output transaction removes (prevTxHash, 0) and adds its output under (hash, 0), and nothing else |
| `Scenarios.ChainedSpendsInOrder` | src/main/java/scrooge/TxHandler.java:72-84 | a transfer of t1's new output, placed after t1 in the batch, is accepted too, and the final pool holds only its output |
| `Scenarios.ChainedSpendsOutOfOrder` | src/main/java/scrooge/TxHandler.java:72-84 | with the consuming transfer placed first, it is skipped and only t1 is accepted, leaving t1's output in the pool |
| `Findings.SpentClaimSurvivesAsWritten` | src/main/java/scrooge/TxHandler.java:76-79 | as written, a claimed output that is no input's (prevTxHash, position) key survives acceptance with its value, so it remains spendable |
| `Findings.DoubleSpendAsWritten` | src/main/java/scrooge/TxHandler.java:78 | as written, two transactions that both spend output ([0], 1) are both accepted, and the pool then holds 20 units created from 10 |
| `Findings.UnrelatedOutputRemovedAsWritten` | src/main/java/scrooge/TxHandler.java:78 | as written, spending ([0], 1) deletes the unrelated unspent output ([0], 0) |
| `Findings.ClaimedOutputsSpent` | src/main/java/scrooge/TxHandler.java:76-79 | with removal by the claimed identifier, no claimed output remains after acceptance, unless the transaction's own hash recreates it |
| `Findings.ConflictingClaimsFirstWins` | src/main/java/scrooge/TxHandler.java:72-84 | with removal by the claimed identifier, in the two-candidate batch [t1, t2] with t1 valid, t2 is rejected when it claims, at any input position, an output t1 claims and t1 does not recreate under its own hash |
| `Findings.AbsentStaysAbsent` | src/main/java/scrooge/TxHandler.java:72-85 | an identifier absent from the pool is still absent after a whole pass when no candidate carries its hash, under either removal key |
| `Findings.LaterConflictingClaimRejected` | src/main/java/scrooge/TxHandler.java:65-85 | with removal by the claimed identifier, over any batch: once the candidate at position p is accepted, a candidate at a later position q claiming an output the one at p claimed is rejected, provided no candidate from p up to q carries that output's hash |
| `Findings.DoubleSpendCorrected` | src/main/java/scrooge/TxHandler.java:78 | with removal by the claimed identifier, the batch of the double-spend example accepts only the first spend |

## Findings

| source | as written | input that shows it | evidently intended | confidence | as-written member | corrected member |
|---|---|---|---|---|---|---|
| src/main/java/scrooge/TxHandler.java:78 | an accepted input at position i removes (prevTxHash, i) | pool {([0], 1): 10}; batch [FirstSpend, SecondSpend], each spending ([0], 1) in full | remove (prevTxHash, outputIndex), the output the input claims, so that the second spend is rejected | high; not executed | `Findings.DoubleSpendAsWritten` | `Findings.LaterConflictingClaimRejected` |

The handler reproduces line 78 as written: `HandleTxs` is proved against
`HandleBatch` with `InputPosition`. The corrected rule is `ClaimedIndex`. It is
the same `HandleBatch` with the other removal key, and every batch lemma in
`Batch` is proved for it as well.

## Left out

- Crypto.verifySignature: its code is not part of this model. It is an arbitrary deterministic function passed in through `Externals`.
- Transaction.getRawDataToSign and Transaction.getHash: serialisation and hashing are not part of this model. The payload is an arbitrary function of the transaction and the input position, and the hash is an opaque byte sequence field.
- UTXOPool and UTXO: their code is not part of this model. A `UtxoPool` is a map field, and identifiers compare by value, as their equals/hashCode are documented to do.
- Output values: Java `double` is modelled as an unbounded `int`. Rounding in `inputSum`/`outputSum`, NaN, infinities and fractional amounts are not modelled.
- The conversion of the accepted `ArrayList` to a `Transaction[]` at line 86 is not modelled. The result is a `seq<Transaction>`.
- Null arrays, null transactions and null fields are not modelled: Dafny values are never null.

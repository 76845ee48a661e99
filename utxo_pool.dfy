/**
  The mutable pool of unspent outputs (UTXOPool): a map from identifier to
  output that the handler updates in place. Its own source is not part of
  this model; these are the operations the handler uses.
 */
module UtxoPools {
  import opened Ledger

  class UtxoPool {
    var entries: Pool

    /** UTXOPool(UTXOPool uPool): a new pool holding the same entries as `other`. */
    constructor Copy(other: UtxoPool)
      ensures entries == other.entries
    {
      entries := other.entries;
    }

    /** addUTXO: insert `out` under `u`, replacing any output already there. */
    method AddUtxo(u: Utxo, out: Output)
      modifies this
      ensures entries == old(entries)[u := out]
    {
      entries := entries[u := out];
    }

    /** removeUTXO: delete `u`, or do nothing when it is absent. */
    method RemoveUtxo(u: Utxo)
      modifies this
      ensures entries == old(entries) - {u}
    {
      entries := entries - {u};
    }
  }
}

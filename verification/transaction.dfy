/** Transactions and their outputs, with the derived facts the ledger reads from them. */
module Transactions {
  import opened Primitives

  /** A spendable output: an amount paid to an address. */
  datatype TxOutput = TxOutput(address: string, value: real)

  /** A value transfer consuming `inputs` and producing `outputs`. */
  datatype Transaction = Transaction(inputs: seq<TxOutput>, outputs: seq<TxOutput>, timestamp: Timestamp)

  /** The content hash of an output, supplied by the hashing collaborator. */
  type OutputHasher = TxOutput -> Hash

  /** The sum of the values of some outputs. */
  function Total(outs: seq<TxOutput>): real
  {
    if |outs| == 0 then 0.0 else outs[0].value + Total(outs[1..])
  }

  /** A coinbase transaction consumes nothing. */
  predicate IsCoinbase(tx: Transaction) {
    |tx.inputs| == 0
  }

  /** A transaction is spendable when it creates no more value than it consumes. */
  predicate IsSpendable(tx: Transaction) {
    Total(tx.inputs) >= Total(tx.outputs)
  }

  /** The hashes of some outputs, one per output, in order. */
  function Hashes(outs: seq<TxOutput>, hashOf: OutputHasher): (hs: seq<Hash>)
    ensures |hs| == |outs|
    ensures forall i :: 0 <= i < |outs| ==> hs[i] == hashOf(outs[i])
  {
    if |outs| == 0 then [] else [hashOf(outs[0])] + Hashes(outs[1..], hashOf)
  }

  /** The hashes of the outputs a transaction spends. */
  function InputHashes(tx: Transaction, hashOf: OutputHasher): seq<Hash> {
    Hashes(tx.inputs, hashOf)
  }

  /** The hashes of the outputs a transaction creates. */
  function OutputHashes(tx: Transaction, hashOf: OutputHasher): seq<Hash> {
    Hashes(tx.outputs, hashOf)
  }
}

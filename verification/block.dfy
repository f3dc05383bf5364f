/** Blocks as the ledger sees them: built and mined elsewhere, checked here. */
module Blocks {
  import opened Primitives
  import opened Transactions

  /** A block: its position, linkage to its predecessor, transactions and mined hash. */
  datatype Block = Block(
    index: nat,
    timestamp: Timestamp,
    previousHash: Hash,
    transactions: seq<Transaction>,
    hash: Hash,
    difficulty: Difficulty)

  /** The block constructor's hash computation (including the nonce search). */
  type BlockSealer = (nat, Timestamp, Hash, seq<Transaction>, Difficulty) -> Hash

  /** The proof-of-work acceptance predicate over a block hash and its difficulty. */
  type DifficultyCheck = (Hash, Difficulty) -> bool

  /** The block constructor: keeps the given fields and lets the sealer compute the hash. */
  function NewBlock(index: nat, timestamp: Timestamp, previousHash: Hash,
                    transactions: seq<Transaction>, difficulty: Difficulty,
                    seal: BlockSealer): Block
  {
    Block(index, timestamp, previousHash, transactions,
          seal(index, timestamp, previousHash, transactions, difficulty), difficulty)
  }
}

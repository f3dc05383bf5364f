/**
 * The single-node ledger state machine: a chain of accepted blocks, a FIFO pool
 * of pending transactions and the set of unspent output hashes. Every operation
 * is a pure function from the old ledger to its outcome and the new ledger.
 */
module Blockchain {
  import opened Primitives
  import opened Transactions
  import opened Blocks

  /** The typed failures of the ledger, each carrying its human-readable message. */
  datatype BlockChainError =
    | ProofOfWorkError(message: string)
    | NotACoinBaseError(message: string)
    | InvalidTransactionError(message: string)
    | InsufficientFundsError(message: string)
    | InputNotSpendableError(message: string)
    | DoubleSpendingError(message: string)

  /** `Result<(), BlockChainError>`. */
  datatype Outcome = Ok | Err(error: BlockChainError)

  datatype Ledger = Ledger(blocks: seq<Block>, pool: seq<Transaction>, unspent: set<Hash>)

  /** The outcome of a state transition together with the ledger it leaves behind. */
  datatype Step = Step(outcome: Outcome, ledger: Ledger)

  /** A candidate block together with the ledger left after draining its transactions. */
  datatype Proposal = Proposal(block: Block, ledger: Ledger)

  /** What the block-acceptance loop gathers: the hashes spent and created, or the first error. */
  datatype Collection = Collected(spent: seq<Hash>, created: seq<Hash>) | Aborted(error: BlockChainError)

  /** The fixed mining reward paid by every candidate's coinbase. */
  const CoinbaseReward: real := 50.0

  const NotMinedMessage: string := "Block is not correctly mined"
  const NotCoinbaseMessage: string := "First transaction in block must be a coinbase."
  const InsufficientFundsMessage: string := "Transaction output is grater than input."
  const NotSpendableMessage: string := "Input is not spendable."
  const DoubleSpendMessage: string := "Double spending attempt."

  /** The empty ledger. */
  function New(): Ledger {
    Ledger([], [], {})
  }

  /** The chain length. */
  function Len(l: Ledger): nat {
    |l.blocks|
  }

  /** Some transaction of `txs` lists `x` among its input hashes. */
  ghost predicate SpentBy(txs: seq<Transaction>, hashOf: OutputHasher, x: Hash) {
    exists i :: 0 <= i < |txs| && x in InputHashes(txs[i], hashOf)
  }

  /** Some transaction of `txs` lists `x` among its output hashes. */
  ghost predicate CreatedBy(txs: seq<Transaction>, hashOf: OutputHasher, x: Hash) {
    exists i :: 0 <= i < |txs| && x in OutputHashes(txs[i], hashOf)
  }

  /** The input hashes of every pool transaction, gathered into one set. */
  function PoolInputHashes(pool: seq<Transaction>, hashOf: OutputHasher): (r: set<Hash>)
    ensures forall x :: x in r <==> SpentBy(pool, hashOf, x)
  {
    if |pool| == 0 then {}
    else
      var r := PoolInputHashes(pool[1..], hashOf) + (set x | x in InputHashes(pool[0], hashOf));
      SpentByFirstAndRest(pool, hashOf);
      r
  }

  /** `i` is the first input hash that is either not unspent or already pending. */
  ghost predicate FirstBadInput(hs: seq<Hash>, unspent: set<Hash>, pending: set<Hash>, i: int) {
    && 0 <= i < |hs|
    && (hs[i] !in unspent || hs[i] in pending)
    && forall j :: 0 <= j < i ==> hs[j] in unspent && hs[j] !in pending
  }

  /** The walk over a transaction's input hashes, stopping at the first bad one. */
  function CheckInputs(hs: seq<Hash>, unspent: set<Hash>, pending: set<Hash>): (r: Outcome)
    ensures r == Ok <==> forall i :: 0 <= i < |hs| ==> hs[i] in unspent && hs[i] !in pending
    ensures r == Err(InputNotSpendableError(NotSpendableMessage)) <==>
              exists i :: FirstBadInput(hs, unspent, pending, i) && hs[i] !in unspent
    ensures r == Err(DoubleSpendingError(DoubleSpendMessage)) <==>
              exists i :: FirstBadInput(hs, unspent, pending, i) && hs[i] in unspent
    ensures r == Ok || r == Err(InputNotSpendableError(NotSpendableMessage))
              || r == Err(DoubleSpendingError(DoubleSpendMessage))
  {
    if |hs| == 0 then Ok
    else if hs[0] !in unspent then Err(InputNotSpendableError(NotSpendableMessage))
    else if hs[0] in pending then Err(DoubleSpendingError(DoubleSpendMessage))
    else
      var r := CheckInputs(hs[1..], unspent, pending);
      FirstBadInputShift(hs, unspent, pending);
      r
  }

  /** Past a good first input hash, the first bad input of `hs` is that of `hs[1..]`, one place on. */
  lemma FirstBadInputShift(hs: seq<Hash>, unspent: set<Hash>, pending: set<Hash>)
    requires |hs| > 0 && hs[0] in unspent && hs[0] !in pending
    ensures forall i :: FirstBadInput(hs, unspent, pending, i) <==> i > 0 && FirstBadInput(hs[1..], unspent, pending, i - 1)
  {
    forall i ensures FirstBadInput(hs, unspent, pending, i) <==> i > 0 && FirstBadInput(hs[1..], unspent, pending, i - 1) {
      if i > 0 && 0 <= i - 1 < |hs[1..]| {
        assert forall j :: 0 <= j < i - 1 ==> hs[1..][j] == hs[j + 1];
      }
    }
  }

  /** The read-only validity check shared by pool admission and block acceptance. */
  function VerifyTransaction(l: Ledger, tx: Transaction, hashOf: OutputHasher): (r: Outcome)
    ensures !IsSpendable(tx) ==> r == Err(InsufficientFundsError(InsufficientFundsMessage))
    ensures r == Ok <==>
              && IsSpendable(tx)
              && forall x :: x in InputHashes(tx, hashOf) ==> x in l.unspent && !SpentBy(l.pool, hashOf, x)
    ensures IsSpendable(tx) ==>
              var hs, pending := InputHashes(tx, hashOf), PoolInputHashes(l.pool, hashOf);
              && (r == Err(InputNotSpendableError(NotSpendableMessage)) <==>
                    exists i :: FirstBadInput(hs, l.unspent, pending, i) && hs[i] !in l.unspent)
              && (r == Err(DoubleSpendingError(DoubleSpendMessage)) <==>
                    exists i :: FirstBadInput(hs, l.unspent, pending, i) && hs[i] in l.unspent)
    ensures r == Ok || r.error in {InsufficientFundsError(InsufficientFundsMessage),
                                   InputNotSpendableError(NotSpendableMessage),
                                   DoubleSpendingError(DoubleSpendMessage)}
  {
    if !IsSpendable(tx) then Err(InsufficientFundsError(InsufficientFundsMessage))
    else CheckInputs(InputHashes(tx, hashOf), l.unspent, PoolInputHashes(l.pool, hashOf))
  }

  /** Admit a transaction to the end of the pool once it verifies. */
  function AddTransactionToPool(l: Ledger, tx: Transaction, hashOf: OutputHasher): (r: Step)
    ensures r.outcome == VerifyTransaction(l, tx, hashOf)
    ensures r.outcome == Ok <==>
              && IsSpendable(tx)
              && forall x :: x in InputHashes(tx, hashOf) ==> x in l.unspent && !SpentBy(l.pool, hashOf, x)
    ensures r.outcome == Ok ==> r.ledger.pool == l.pool + [tx]
    ensures r.outcome == Ok ==> r.ledger.blocks == l.blocks && r.ledger.unspent == l.unspent
    ensures r.outcome.Err? ==> r.ledger == l
  {
    match VerifyTransaction(l, tx, hashOf)
    case Ok => Step(Ok, l.(pool := l.pool + [tx]))
    case Err(e) => Step(Err(e), l)
  }

  /** The reward transaction of a candidate block. */
  function Coinbase(minerAddress: string, timestamp: Timestamp): Transaction {
    Transaction([], [TxOutput(minerAddress, CoinbaseReward)], timestamp)
  }

  /**
   * Assemble a candidate block: a coinbase followed by up to `transactionsCount`
   * pool transactions in FIFO order, which leave the pool at once.
   */
  function CreateCandidateBlock(l: Ledger, transactionsCount: nat, minerAddress: string,
                                difficulty: Difficulty, coinbaseTime: Timestamp,
                                blockTime: Timestamp, seal: BlockSealer): (p: Proposal)
    ensures |p.block.transactions| == 1 + Min(|l.pool|, transactionsCount)
    ensures p.block.transactions[1..] + p.ledger.pool == l.pool
    ensures IsCoinbase(p.block.transactions[0])
    ensures p.block.transactions[0].outputs == [TxOutput(minerAddress, CoinbaseReward)]
    ensures p.block.transactions[0].timestamp == coinbaseTime
    ensures p.ledger.blocks == l.blocks && p.ledger.unspent == l.unspent
    ensures |l.blocks| == 0 ==> p.block.index == 1 && p.block.previousHash == EmptyHash
    ensures |l.blocks| > 0 ==>
              && p.block.index == l.blocks[|l.blocks| - 1].index + 1
              && p.block.previousHash == l.blocks[|l.blocks| - 1].hash
    ensures p.block.timestamp == blockTime && p.block.difficulty == difficulty
    ensures p.block.hash == seal(p.block.index, blockTime, p.block.previousHash, p.block.transactions, difficulty)
  {
    var candidateIndex := if |l.blocks| == 0 then 0 else l.blocks[|l.blocks| - 1].index;
    var previousHash := if |l.blocks| == 0 then EmptyHash else l.blocks[|l.blocks| - 1].hash;
    var k := Min(|l.pool|, transactionsCount);
    var transactions := [Coinbase(minerAddress, coinbaseTime)] + l.pool[..k];
    assert transactions[1..] == l.pool[..k];
    assert l.pool[..k] + l.pool[k..] == l.pool;
    Proposal(NewBlock(candidateIndex + 1, blockTime, previousHash, transactions, difficulty, seal),
             l.(pool := l.pool[k..]))
  }

  /** `i` is the first of `txs` that fails verification against `l`. */
  ghost predicate FirstFailure(l: Ledger, txs: seq<Transaction>, hashOf: OutputHasher, i: int) {
    && 0 <= i < |txs|
    && VerifyTransaction(l, txs[i], hashOf).Err?
    && forall j :: 0 <= j < i ==> VerifyTransaction(l, txs[j], hashOf) == Ok
  }

  /**
   * The acceptance loop over a block's non-coinbase transactions: verify each one
   * against the unchanged ledger, gathering the hashes it spends and creates.
   */
  function VerifyAndCollect(l: Ledger, txs: seq<Transaction>, hashOf: OutputHasher): (r: Collection)
    ensures r.Collected? <==> forall i :: 0 <= i < |txs| ==> VerifyTransaction(l, txs[i], hashOf) == Ok
    ensures r.Aborted? ==>
              exists i :: FirstFailure(l, txs, hashOf, i) && VerifyTransaction(l, txs[i], hashOf) == Err(r.error)
    ensures r.Collected? ==> forall x :: x in r.spent <==> SpentBy(txs, hashOf, x)
    ensures r.Collected? ==> forall x :: x in r.created <==> CreatedBy(txs, hashOf, x)
  {
    if |txs| == 0 then Collected([], [])
    else match VerifyTransaction(l, txs[0], hashOf)
      case Err(e) =>
        assert FirstFailure(l, txs, hashOf, 0);
        Aborted(e)
      case Ok =>
        var tail := VerifyAndCollect(l, txs[1..], hashOf);
        ShiftFirstFailure(l, txs, hashOf);
        ShiftAllVerify(l, txs, hashOf);
        SpentByFirstAndRest(txs, hashOf);
        CreatedByFirstAndRest(txs, hashOf);
        match tail
        case Aborted(e) => Aborted(e)
        case Collected(spent, created) =>
          Collected(InputHashes(txs[0], hashOf) + spent, OutputHashes(txs[0], hashOf) + created)
  }

  /** The first failure of `txs[1..]` is, one place on, the first failure of `txs` when `txs[0]` verifies. */
  lemma ShiftFirstFailure(l: Ledger, txs: seq<Transaction>, hashOf: OutputHasher)
    requires |txs| > 0 && VerifyTransaction(l, txs[0], hashOf) == Ok
    ensures forall i :: FirstFailure(l, txs[1..], hashOf, i) ==> FirstFailure(l, txs, hashOf, i + 1)
  {
    assert forall k :: 0 <= k < |txs[1..]| ==> txs[1..][k] == txs[k + 1];
    forall i | FirstFailure(l, txs[1..], hashOf, i) ensures FirstFailure(l, txs, hashOf, i + 1) {
      forall j | 0 < j < i + 1 ensures VerifyTransaction(l, txs[j], hashOf) == Ok {
        assert txs[j] == txs[1..][j - 1];
      }
    }
  }

  /** All of `txs` verify iff its head and all of its tail do. */
  lemma ShiftAllVerify(l: Ledger, txs: seq<Transaction>, hashOf: OutputHasher)
    requires |txs| > 0
    ensures (forall i :: 0 <= i < |txs| ==> VerifyTransaction(l, txs[i], hashOf) == Ok) <==>
            && VerifyTransaction(l, txs[0], hashOf) == Ok
            && (forall i :: 0 <= i < |txs[1..]| ==> VerifyTransaction(l, txs[1..][i], hashOf) == Ok)
  {
    assert forall i :: 0 <= i < |txs[1..]| ==> txs[1..][i] == txs[i + 1];
  }

  /** The hashes `txs` spends are those of its head and those of its tail. */
  lemma SpentByFirstAndRest(txs: seq<Transaction>, hashOf: OutputHasher)
    requires |txs| > 0
    ensures forall x :: SpentBy(txs, hashOf, x) <==>
                        x in InputHashes(txs[0], hashOf) || SpentBy(txs[1..], hashOf, x)
  {
    forall x ensures SpentBy(txs, hashOf, x) <==>
                     x in InputHashes(txs[0], hashOf) || SpentBy(txs[1..], hashOf, x)
    {
      if SpentBy(txs, hashOf, x) {
        var i :| 0 <= i < |txs| && x in InputHashes(txs[i], hashOf);
        if i > 0 { assert txs[1..][i - 1] == txs[i]; }
      }
      if SpentBy(txs[1..], hashOf, x) {
        var i :| 0 <= i < |txs[1..]| && x in InputHashes(txs[1..][i], hashOf);
        assert txs[i + 1] == txs[1..][i];
      }
    }
  }

  /** The hashes `txs` creates are those of its head and those of its tail. */
  lemma CreatedByFirstAndRest(txs: seq<Transaction>, hashOf: OutputHasher)
    requires |txs| > 0
    ensures forall x :: CreatedBy(txs, hashOf, x) <==>
                        x in OutputHashes(txs[0], hashOf) || CreatedBy(txs[1..], hashOf, x)
  {
    forall x ensures CreatedBy(txs, hashOf, x) <==>
                     x in OutputHashes(txs[0], hashOf) || CreatedBy(txs[1..], hashOf, x)
    {
      if CreatedBy(txs, hashOf, x) {
        var i :| 0 <= i < |txs| && x in OutputHashes(txs[i], hashOf);
        if i > 0 { assert txs[1..][i - 1] == txs[i]; }
      }
      if CreatedBy(txs[1..], hashOf, x) {
        var i :| 0 <= i < |txs[1..]| && x in OutputHashes(txs[1..][i], hashOf);
        assert txs[i + 1] == txs[1..][i];
      }
    }
  }

  /**
   * Accept a mined block: check its proof of work and coinbase, re-verify the rest
   * of its transactions, then update the unspent set and append it to the chain.
   */
  function AggregateMinedBlock(l: Ledger, b: Block, meetsDifficulty: DifficultyCheck,
                               hashOf: OutputHasher): (r: Step)
    // precedence of the checks, and no change on any failure
    ensures !meetsDifficulty(b.hash, b.difficulty) ==> r == Step(Err(ProofOfWorkError(NotMinedMessage)), l)
    ensures meetsDifficulty(b.hash, b.difficulty) && |b.transactions| > 0 && !IsCoinbase(b.transactions[0]) ==>
              r == Step(Err(NotACoinBaseError(NotCoinbaseMessage)), l)
    ensures meetsDifficulty(b.hash, b.difficulty) && |b.transactions| > 0 && IsCoinbase(b.transactions[0]) ==>
              forall i :: FirstFailure(l, b.transactions[1..], hashOf, i) ==>
                r == Step(VerifyTransaction(l, b.transactions[1..][i], hashOf), l)
    ensures r.outcome.Err? ==> r.ledger == l
    // an empty block is accepted and changes nothing
    ensures meetsDifficulty(b.hash, b.difficulty) && |b.transactions| == 0 ==> r == Step(Ok, l)
    ensures r.outcome == Ok <==>
              && meetsDifficulty(b.hash, b.difficulty)
              && (|b.transactions| > 0 ==>
                    && IsCoinbase(b.transactions[0])
                    && forall i :: 1 <= i < |b.transactions| ==> VerifyTransaction(l, b.transactions[i], hashOf) == Ok)
    // the update made by a non-empty accepted block
    ensures r.outcome == Ok && |b.transactions| > 0 ==>
              && r.ledger.blocks == l.blocks + [b]
              && Len(r.ledger) == Len(l) + 1
              && r.ledger.pool == l.pool
              && forall x :: x in r.ledger.unspent <==>
                   || (x in l.unspent && !SpentBy(b.transactions[1..], hashOf, x))
                   || x in OutputHashes(b.transactions[0], hashOf)
                   || CreatedBy(b.transactions[1..], hashOf, x)
  {
    if !meetsDifficulty(b.hash, b.difficulty) then Step(Err(ProofOfWorkError(NotMinedMessage)), l)
    else if |b.transactions| == 0 then Step(Ok, l)
    else
      var coinbase := b.transactions[0];
      var rest := b.transactions[1..];
      if !IsCoinbase(coinbase) then Step(Err(NotACoinBaseError(NotCoinbaseMessage)), l)
      else
        assert forall i :: 1 <= i < |b.transactions| ==> b.transactions[i] == rest[i - 1];
        match VerifyAndCollect(l, rest, hashOf)
        case Aborted(e) =>
          FirstFailureUnique(l, rest, hashOf);
          Step(Err(e), l)
        case Collected(spent, created) =>
          Step(Ok, Ledger(l.blocks + [b], l.pool,
                          UpdateUnspent(l.unspent, spent, OutputHashes(coinbase, hashOf) + created)))
  }

  /**
   * The unspent-set update of an accepted block: retain the hashes not in
   * `outputSpent`, then extend the result with `outputCreated`.
   */
  function UpdateUnspent(unspent: set<Hash>, outputSpent: seq<Hash>, outputCreated: seq<Hash>): (u: set<Hash>)
    ensures forall x :: x in u <==> (x in unspent && x !in outputSpent) || x in outputCreated
  {
    Extend(Retain(unspent, outputSpent), outputCreated)
  }

  /** At most one transaction is the first to fail. */
  lemma FirstFailureUnique(l: Ledger, txs: seq<Transaction>, hashOf: OutputHasher)
    ensures forall i, j :: FirstFailure(l, txs, hashOf, i) && FirstFailure(l, txs, hashOf, j) ==> i == j
  {
  }
}

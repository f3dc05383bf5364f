/**
 * Concrete runs of the ledger taken from its unit tests, and consequences of
 * the transition rules that the ledger keeps as they are.
 */
module LedgerScenarios {
  import opened Primitives
  import opened Transactions
  import opened Blocks
  import opened Blockchain
  import opened LedgerInvariants

  /**
   * Alice's two outputs of 10 and 20 are unspent; a transaction spending both to pay
   * Bob 25 and 4.995 enters the pool, and the unspent set keeps its two hashes.
   */
  lemma AddTransactionToPoolTest(hashOf: OutputHasher, now: Timestamp)
    requires hashOf(TxOutput("Alice", 10.0)) != hashOf(TxOutput("Alice", 20.0))
    ensures var unspentOutputs := [TxOutput("Alice", 10.0), TxOutput("Alice", 20.0)];
            var l := New().(unspent := {hashOf(unspentOutputs[0]), hashOf(unspentOutputs[1])});
            var tx := Transaction(unspentOutputs, [TxOutput("Bob", 25.0), TxOutput("Bob", 4.995)], now);
            var r := AddTransactionToPool(l, tx, hashOf);
            r.outcome == Ok && |r.ledger.pool| == 1 && |r.ledger.unspent| == 2
  {
    var unspentOutputs := [TxOutput("Alice", 10.0), TxOutput("Alice", 20.0)];
    var tx := Transaction(unspentOutputs, [TxOutput("Bob", 25.0), TxOutput("Bob", 4.995)], now);
    assert Total(tx.inputs) == 30.0;
    assert Total(tx.outputs) == 29.995;
  }

  /** On an empty ledger the candidate is block 1 after the empty hash, holding only Alice's reward. */
  lemma CreateCandidateBlockTest(seal: BlockSealer, coinbaseTime: Timestamp, blockTime: Timestamp)
    ensures var p := CreateCandidateBlock(New(), 5, "Alice", MaxDifficulty, coinbaseTime, blockTime, seal);
            && p.block.index == 1
            && p.block.previousHash == EmptyHash
            && p.block.transactions == [Transaction([], [TxOutput("Alice", 50.0)], coinbaseTime)]
            && p.ledger == New()
  {
  }

  /** A transaction whose input another pending transaction already spends is refused as a double spend. */
  lemma SecondSpendInPoolRejected(l: Ledger, first: Transaction, second: Transaction, hashOf: OutputHasher)
    requires AddTransactionToPool(l, first, hashOf).outcome == Ok
    requires IsSpendable(second) && |second.inputs| > 0
    requires hashOf(second.inputs[0]) in InputHashes(first, hashOf)
    ensures var l' := AddTransactionToPool(l, first, hashOf).ledger;
            var r := AddTransactionToPool(l', second, hashOf);
            r == Step(Err(DoubleSpendingError(DoubleSpendMessage)), l')
  {
    var l' := AddTransactionToPool(l, first, hashOf).ledger;
    var x := hashOf(second.inputs[0]);
    assert l'.pool[|l'.pool| - 1] == first;
    assert SpentBy(l'.pool, hashOf, x);
    assert FirstBadInput(InputHashes(second, hashOf), l'.unspent, PoolInputHashes(l'.pool, hashOf), 0);
  }

  /**
   * Block acceptance verifies every transaction against the ledger as it was before
   * the block, so one block may spend the same output twice.
   */
  lemma IntraBlockDoubleSpendAccepted(l: Ledger, b: Block, tx: Transaction,
                                      meetsDifficulty: DifficultyCheck, hashOf: OutputHasher)
    requires meetsDifficulty(b.hash, b.difficulty)
    requires |b.transactions| == 3 && IsCoinbase(b.transactions[0])
    requires b.transactions[1] == tx && b.transactions[2] == tx
    requires VerifyTransaction(l, tx, hashOf) == Ok
    ensures var r := AggregateMinedBlock(l, b, meetsDifficulty, hashOf);
            r.outcome == Ok && r.ledger.blocks == l.blocks + [b]
  {
    var rest := b.transactions[1..];
    assert rest == [tx, tx];
    assert forall i :: 0 <= i < |rest| ==> VerifyTransaction(l, rest[i], hashOf) == Ok;
  }

  /**
   * The transactions of a candidate leave the pool when it is proposed; if the
   * candidate then fails proof of work they are in neither the pool nor the chain.
   */
  lemma RejectedCandidateLosesTransactions(l: Ledger, transactionsCount: nat, minerAddress: string,
                                           difficulty: Difficulty, coinbaseTime: Timestamp,
                                           blockTime: Timestamp, seal: BlockSealer,
                                           meetsDifficulty: DifficultyCheck, hashOf: OutputHasher)
    ensures var p := CreateCandidateBlock(l, transactionsCount, minerAddress, difficulty,
                                          coinbaseTime, blockTime, seal);
            var r := AggregateMinedBlock(p.ledger, p.block, meetsDifficulty, hashOf);
            var k := Min(|l.pool|, transactionsCount);
            !meetsDifficulty(p.block.hash, p.block.difficulty) ==>
              && r.outcome == Err(ProofOfWorkError(NotMinedMessage))
              && r.ledger.blocks == l.blocks
              && r.ledger.pool == l.pool[k..]
  {
    var p := CreateCandidateBlock(l, transactionsCount, minerAddress, difficulty, coinbaseTime, blockTime, seal);
    var k := Min(|l.pool|, transactionsCount);
    assert p.block.transactions[1..] == l.pool[..k] by {
      assert p.block.transactions[1..] + p.ledger.pool == l.pool;
    }
  }

  /** A candidate always passes the coinbase check. */
  lemma CandidateHasCoinbase(l: Ledger, transactionsCount: nat, minerAddress: string,
                             difficulty: Difficulty, coinbaseTime: Timestamp,
                             blockTime: Timestamp, seal: BlockSealer,
                             meetsDifficulty: DifficultyCheck, hashOf: OutputHasher)
    ensures var p := CreateCandidateBlock(l, transactionsCount, minerAddress, difficulty,
                                          coinbaseTime, blockTime, seal);
            AggregateMinedBlock(p.ledger, p.block, meetsDifficulty, hashOf).outcome
              != Err(NotACoinBaseError(NotCoinbaseMessage))
  {
  }

  /** Acceptance does not look at linkage: a block claiming a wrong predecessor is appended. */
  lemma UnlinkedBlockAccepted()
    ensures var b := Block(7, 0, [1], [Coinbase("Alice", 0)], [], 0);
            var r := AggregateMinedBlock(New(), b, (h, d) => true, o => []);
            r.outcome == Ok && r.ledger.blocks == [b] && !ChainLinked(r.ledger.blocks)
  {
  }

  /** A content hash telling Alice's outputs from everyone else's. */
  function AliceHash(o: TxOutput): Hash {
    if o.address == "Alice" then [1] else [2]
  }

  /** A difficulty check every block passes. */
  function AnyWork(h: Hash, d: Difficulty): bool {
    true
  }

  /**
   * The unspent set is not "everything created minus everything spent": a block
   * whose transaction spends an output and pays the same output again leaves
   * that hash both spent by the block and unspent after it.
   */
  lemma RecreatedOutputStaysUnspent()
    ensures var alice := TxOutput("Alice", 10.0);
            var l := New().(unspent := {AliceHash(alice)});
            var b := Block(1, 0, EmptyHash, [Coinbase("Miner", 0), Transaction([alice], [alice], 0)], [], 0);
            var r := AggregateMinedBlock(l, b, AnyWork, AliceHash);
            && r.outcome == Ok
            && AliceHash(alice) in SpentSet(b.transactions[1..], AliceHash)
            && AliceHash(alice) in r.ledger.unspent
  {
    var alice := TxOutput("Alice", 10.0);
    var tx := Transaction([alice], [alice], 0);
    assert InputHashes(tx, AliceHash) == [[1]];
    assert OutputHashes(tx, AliceHash) == [[1]];
  }
}

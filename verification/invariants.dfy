/**
 * Invariants of the ledger that its three state transitions preserve, and the
 * block-by-block account of the unspent set.
 */
module LedgerInvariants {
  import opened Primitives
  import opened Transactions
  import opened Blocks
  import opened Blockchain

  /** Every input of every pending transaction is still unspent. */
  ghost predicate PoolInputsUnspent(l: Ledger, hashOf: OutputHasher) {
    forall i, x :: 0 <= i < |l.pool| && x in InputHashes(l.pool[i], hashOf) ==> x in l.unspent
  }

  /** No two pending transactions spend the same output. */
  ghost predicate PoolNoDoubleSpend(pool: seq<Transaction>, hashOf: OutputHasher) {
    forall i, j, x :: 0 <= i < |pool| && 0 <= j < |pool| && i != j && x in InputHashes(pool[i], hashOf) ==>
      x !in InputHashes(pool[j], hashOf)
  }

  ghost predicate PoolValid(l: Ledger, hashOf: OutputHasher) {
    PoolInputsUnspent(l, hashOf) && PoolNoDoubleSpend(l.pool, hashOf)
  }

  /** Each block follows its predecessor: index one higher, `previousHash` its hash. */
  ghost predicate ChainLinked(blocks: seq<Block>) {
    && (|blocks| > 0 ==> blocks[0].index == 1 && blocks[0].previousHash == EmptyHash)
    && forall i :: 0 < i < |blocks| ==>
         blocks[i].index == blocks[i - 1].index + 1 && blocks[i].previousHash == blocks[i - 1].hash
  }

  /** The hashes the transactions of `txs` spend as inputs. */
  ghost function SpentSet(txs: seq<Transaction>, hashOf: OutputHasher): (s: set<Hash>)
    ensures forall x :: x in s <==> SpentBy(txs, hashOf, x)
  {
    set i, x | 0 <= i < |txs| && x in InputHashes(txs[i], hashOf) :: x
  }

  /** The hashes the transactions of `txs` create. */
  ghost function CreatedSet(txs: seq<Transaction>, hashOf: OutputHasher): (s: set<Hash>)
    ensures forall x :: x in s <==> CreatedBy(txs, hashOf, x)
  {
    set i, x | 0 <= i < |txs| && x in OutputHashes(txs[i], hashOf) :: x
  }

  /** The unspent set after accepting `b`: its spent hashes removed, all its created hashes added. */
  ghost function ApplyBlock(u: set<Hash>, b: Block, hashOf: OutputHasher): set<Hash> {
    if |b.transactions| == 0 then u
    else (u - SpentSet(b.transactions[1..], hashOf)) + CreatedSet(b.transactions, hashOf)
  }

  /** The unspent set obtained by accepting `blocks` in order, starting from `u0`. */
  ghost function Replay(u0: set<Hash>, blocks: seq<Block>, hashOf: OutputHasher): set<Hash>
    decreases |blocks|
  {
    if |blocks| == 0 then u0
    else ApplyBlock(Replay(u0, blocks[..|blocks| - 1], hashOf), blocks[|blocks| - 1], hashOf)
  }

  /** The ledger's unspent set is what its chain produces from the initial set `u0`. */
  ghost predicate UnspentFollowsChain(l: Ledger, u0: set<Hash>, hashOf: OutputHasher) {
    l.unspent == Replay(u0, l.blocks, hashOf)
  }

  /** Accepted blocks are never empty. */
  ghost predicate NoEmptyBlocks(blocks: seq<Block>) {
    forall i :: 0 <= i < |blocks| ==> |blocks[i].transactions| > 0
  }

  lemma NewSatisfiesInvariants(hashOf: OutputHasher)
    ensures Len(New()) == 0 && New().pool == [] && New().unspent == {}
    ensures PoolValid(New(), hashOf)
    ensures ChainLinked(New().blocks) && NoEmptyBlocks(New().blocks)
    ensures UnspentFollowsChain(New(), {}, hashOf)
  {
  }

  lemma {:induction false} AddPreservesPoolValid(l: Ledger, tx: Transaction, hashOf: OutputHasher)
    requires PoolValid(l, hashOf)
    ensures PoolValid(AddTransactionToPool(l, tx, hashOf).ledger, hashOf)
  {
    var r := AddTransactionToPool(l, tx, hashOf);
    if r.outcome == Ok {
      var pool := r.ledger.pool;
      assert pool == l.pool + [tx];
      forall i, x | 0 <= i < |pool| && x in InputHashes(pool[i], hashOf) ensures x in r.ledger.unspent {
        if i < |l.pool| { assert pool[i] == l.pool[i]; }
      }
      forall i, j, x | 0 <= i < |pool| && 0 <= j < |pool| && i != j && x in InputHashes(pool[i], hashOf)
        ensures x !in InputHashes(pool[j], hashOf)
      {
        if i == |l.pool| {
          assert pool[j] == l.pool[j];
          assert !SpentBy(l.pool, hashOf, x);
        } else if j == |l.pool| {
          assert pool[i] == l.pool[i];
          assert SpentBy(l.pool, hashOf, x);
        } else {
          assert pool[i] == l.pool[i] && pool[j] == l.pool[j];
        }
      }
    }
  }

  lemma {:induction false} CreatePreservesPoolValid(l: Ledger, transactionsCount: nat, minerAddress: string,
                                                    difficulty: Difficulty, coinbaseTime: Timestamp,
                                                    blockTime: Timestamp, seal: BlockSealer,
                                                    hashOf: OutputHasher)
    requires PoolValid(l, hashOf)
    ensures PoolValid(CreateCandidateBlock(l, transactionsCount, minerAddress, difficulty,
                                           coinbaseTime, blockTime, seal).ledger, hashOf)
  {
    var p := CreateCandidateBlock(l, transactionsCount, minerAddress, difficulty, coinbaseTime, blockTime, seal);
    var k := |p.block.transactions| - 1;
    assert p.ledger.pool == l.pool[k..] by {
      assert p.block.transactions[1..] + p.ledger.pool == l.pool;
    }
    forall i | 0 <= i < |p.ledger.pool| ensures p.ledger.pool[i] == l.pool[i + k] { }
  }

  lemma AggregatePreservesPoolValid(l: Ledger, b: Block, meetsDifficulty: DifficultyCheck,
                                    hashOf: OutputHasher)
    requires PoolValid(l, hashOf)
    ensures PoolValid(AggregateMinedBlock(l, b, meetsDifficulty, hashOf).ledger, hashOf)
  {
  }

  /** Proposing a block from a linked chain and accepting it keeps the chain linked. */
  lemma AcceptedCandidateKeepsChainLinked(l: Ledger, transactionsCount: nat, minerAddress: string,
                                          difficulty: Difficulty, coinbaseTime: Timestamp,
                                          blockTime: Timestamp, seal: BlockSealer,
                                          meetsDifficulty: DifficultyCheck, hashOf: OutputHasher)
    requires ChainLinked(l.blocks) && NoEmptyBlocks(l.blocks)
    ensures var p := CreateCandidateBlock(l, transactionsCount, minerAddress, difficulty,
                                          coinbaseTime, blockTime, seal);
            var r := AggregateMinedBlock(p.ledger, p.block, meetsDifficulty, hashOf);
            ChainLinked(r.ledger.blocks) && NoEmptyBlocks(r.ledger.blocks)
  {
    var p := CreateCandidateBlock(l, transactionsCount, minerAddress, difficulty, coinbaseTime, blockTime, seal);
    var r := AggregateMinedBlock(p.ledger, p.block, meetsDifficulty, hashOf);
    if r.outcome == Ok {
      var blocks := r.ledger.blocks;
      assert blocks == l.blocks + [p.block];
      forall i | 0 < i < |blocks|
        ensures blocks[i].index == blocks[i - 1].index + 1 && blocks[i].previousHash == blocks[i - 1].hash
      {
        if i < |l.blocks| { assert blocks[i] == l.blocks[i] && blocks[i - 1] == l.blocks[i - 1]; }
      }
    }
  }

  /** Accepting a non-empty block applies exactly `ApplyBlock` to the unspent set. */
  lemma AcceptedUnspentIsApplyBlock(l: Ledger, b: Block, meetsDifficulty: DifficultyCheck, hashOf: OutputHasher)
    requires |b.transactions| > 0
    requires AggregateMinedBlock(l, b, meetsDifficulty, hashOf).outcome == Ok
    ensures AggregateMinedBlock(l, b, meetsDifficulty, hashOf).ledger.unspent == ApplyBlock(l.unspent, b, hashOf)
  {
    var u := AggregateMinedBlock(l, b, meetsDifficulty, hashOf).ledger.unspent;
    var rest := b.transactions[1..];
    CreatedByFirstAndRest(b.transactions, hashOf);
    forall x ensures x in u <==> x in ApplyBlock(l.unspent, b, hashOf) {
      assert x in u <==> (x in l.unspent && !SpentBy(rest, hashOf, x))
                         || x in OutputHashes(b.transactions[0], hashOf) || CreatedBy(rest, hashOf, x);
    }
  }

  /** Acceptance keeps the unspent set equal to the replay of the chain. */
  lemma {:induction false} AggregateFollowsReplay(l: Ledger, u0: set<Hash>, b: Block,
                                                  meetsDifficulty: DifficultyCheck, hashOf: OutputHasher)
    requires UnspentFollowsChain(l, u0, hashOf) && NoEmptyBlocks(l.blocks)
    ensures var r := AggregateMinedBlock(l, b, meetsDifficulty, hashOf);
            UnspentFollowsChain(r.ledger, u0, hashOf) && NoEmptyBlocks(r.ledger.blocks)
  {
    var r := AggregateMinedBlock(l, b, meetsDifficulty, hashOf);
    if r.outcome == Ok && |b.transactions| > 0 {
      var blocks := r.ledger.blocks;
      assert blocks[..|blocks| - 1] == l.blocks;
      AcceptedUnspentIsApplyBlock(l, b, meetsDifficulty, hashOf);
    }
  }

  lemma AddFollowsReplay(l: Ledger, u0: set<Hash>, tx: Transaction, hashOf: OutputHasher)
    requires UnspentFollowsChain(l, u0, hashOf)
    ensures UnspentFollowsChain(AddTransactionToPool(l, tx, hashOf).ledger, u0, hashOf)
  {
  }

  lemma CreateFollowsReplay(l: Ledger, u0: set<Hash>, transactionsCount: nat, minerAddress: string,
                            difficulty: Difficulty, coinbaseTime: Timestamp,
                            blockTime: Timestamp, seal: BlockSealer, hashOf: OutputHasher)
    requires UnspentFollowsChain(l, u0, hashOf)
    ensures UnspentFollowsChain(CreateCandidateBlock(l, transactionsCount, minerAddress, difficulty,
                                                     coinbaseTime, blockTime, seal).ledger, u0, hashOf)
  {
  }
}

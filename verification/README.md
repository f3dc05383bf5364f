# Ledger state machine

A Dafny model of the single-node ledger `Blockchain` of `src/blockchain.rs`.
The ledger holds three collections:

- the chain of accepted blocks;
- a FIFO pool of pending transactions;
- the set of unspent output hashes (the UTXO set).

It has three state transitions, which all rely on one read-only check, `verify_transaction`:

- `add_transaction_to_pool` admits a verified transaction to the end of the pool.
- `create_candidate_block` drains up to *k* pool transactions behind a coinbase paying the fixed reward of 50.
- `aggregate_mined_block` checks proof of work, the coinbase and the remaining transactions. It then updates the UTXO set and appends the block.

The model is functional. `Ledger` is an immutable datatype, and each operation is a pure function.
The function returns the outcome (`Ok` or a typed `BlockChainError` carrying the source's message) together with the new ledger.
Collaborators the ledger only calls are passed in as function-typed parameters:

- the output hash, `OutputHasher`;
- the block constructor's hash and nonce search, `BlockSealer`;
- the proof-of-work predicate `check_difficulty`, `DifficultyCheck`.

Clock readings are passed in as `Timestamp` parameters.

Files:

- `primitives.dfy`: hashes, timestamps, the 256-bit difficulty, `Min`, and the hash-set `Retain` and `Extend` steps.
- `transaction.dfy`: outputs, transactions, `Total`, `IsCoinbase`, `IsSpendable`, and the input and output hashes.
- `block.dfy`: blocks and the block constructor.
- `blockchain.dfy`: errors, the ledger, and its operations.
- `invariants.dfy`: the invariants the operations preserve.
- `scenarios.dfy`: the unit tests as lemmas, plus the behaviours the code keeps as they are.

Behaviour modelled as the code has it:

- A block with an empty transaction list skips the `if let Some(..) = split_first()` branch, because `split_first` returns `None`. It is accepted with `Ok` and changes nothing. It is not rejected as lacking a coinbase.
- Every transaction in a block is verified against the ledger as it was before the block. So two transactions in one block may spend the same output.
- Transactions leave the pool when a candidate is proposed, not when it is accepted.
- Acceptance does not check `previous_hash` or the index. Chain linkage holds only for blocks proposed by `create_candidate_block` on the same chain.
- The unspent set is the block-by-block replay of the chain (`Replay`). It is not "everything created minus everything consumed". Outputs with equal content hash to the same value, so an output that is spent and created again is unspent again (`RecreatedOutputStaysUnspent`).
- `len` is modelled by `Len`, the number of blocks. Its only rule, that an accepted non-empty block adds one, is stated with `AggregateMinedBlock`.

## Model

| member | source | states |
|---|---|---|
| Primitives.Min | src/blockchain.rs:69 | the number of transactions drained is the smaller of the pool size and the requested count |
| Blockchain.PoolInputHashes | src/blockchain.rs:148-152 | a hash is in the gathered set exactly when some pool transaction lists it as an input |
| Blockchain.CheckInputs | src/blockchain.rs:140-158 | walks the input hashes in order. It is `Ok` exactly when every hash is unspent and not pending. `InputNotSpendableError` is returned exactly when the first bad hash is not unspent. `DoubleSpendingError` is returned exactly when the first bad hash is unspent but pending. No other outcome is possible |
| Blockchain.VerifyTransaction | src/blockchain.rs:133-160 | an unspendable transaction fails with `InsufficientFundsError` whatever its inputs. Otherwise the error is decided by the first bad input. `Ok` holds iff the transaction is spendable and each input hash is unspent and not an input of any pool transaction. Only these three errors occur. It is a function of the ledger, so it cannot mutate it |
| Blockchain.AddTransactionToPool | src/blockchain.rs:37-53 | the outcome is exactly the verification outcome. On `Ok` the pool becomes `old pool + [tx]` and the chain and UTXO set are unchanged. On an error the ledger is unchanged |
| Blockchain.CreateCandidateBlock | src/blockchain.rs:55-95 | the block holds 1 + min(pool size, count) transactions. Its non-coinbase transactions followed by the new pool give back the old pool, in FIFO order. The first transaction is a coinbase with exactly one output of 50 to the miner. The index and previous hash follow the last block, or are 1 and the empty hash on an empty chain. Chain and UTXO set are unchanged |
| Blockchain.VerifyAndCollect | src/blockchain.rs:110-122 | collects iff every transaction verifies. Otherwise it returns the error of the first one that fails. The collected spent and created hashes are exactly the inputs and outputs of the transactions |
| Primitives.Extend | src/blockchain.rs:127 | inserting the created hashes one at a time, in order, leaves exactly the old members and the created hashes |
| Blockchain.UpdateUnspent | src/blockchain.rs:124-127 | the `retain` step followed by the `extend` step leaves a hash iff it was unspent and not spent by the block, or the block creates it |
| Blockchain.AggregateMinedBlock | src/blockchain.rs:97-131 | errors come in this order: `ProofOfWorkError` first, then `NotACoinBaseError`, then the first failing transaction's own error. Every error leaves the ledger unchanged. An empty block gives `Ok` with no change. `Ok` holds iff proof of work holds, and a non-empty block starts with a coinbase and all its other transactions verify. On acceptance of a non-empty block: the block is appended, `Len` grows by one, and the pool is unchanged. The new UTXO set is (old \ spent by the rest) ∪ coinbase outputs ∪ outputs of the rest |
| LedgerInvariants.NewSatisfiesInvariants | src/blockchain.rs:29-35 | the new ledger has no blocks, an empty pool and an empty UTXO set, and satisfies every invariant below |
| LedgerInvariants.AddPreservesPoolValid | src/blockchain.rs:37-53 | admission keeps every pending input unspent and keeps pending transactions pairwise free of shared inputs |
| LedgerInvariants.CreatePreservesPoolValid | src/blockchain.rs:83-87 | draining a prefix of the pool keeps the pool invariants |
| LedgerInvariants.AggregatePreservesPoolValid | src/blockchain.rs:115-128 | acceptance never spends an output a pending transaction relies on, because verification refuses inputs the pool already lists |
| LedgerInvariants.AcceptedCandidateKeepsChainLinked | src/blockchain.rs:61-94 | accepting a candidate proposed on a linked chain keeps the chain linked: each index is one above the previous and each `previous_hash` is the previous block's hash. It also keeps accepted blocks non-empty |
| LedgerInvariants.AggregateFollowsReplay | src/blockchain.rs:110-128 | after acceptance, the UTXO set is still the replay of the chain from the initial set |
| LedgerInvariants.AddFollowsReplay | src/blockchain.rs:51 | pool admission leaves the UTXO set the replay of the chain |
| LedgerInvariants.CreateFollowsReplay | src/blockchain.rs:83-87 | proposing a candidate leaves the UTXO set the replay of the chain |
| LedgerScenarios.AddTransactionToPoolTest | src/blockchain.rs:175-210 | Alice's outputs of 10 and 20 pay Bob 25 and 4.995. The transaction is admitted, the pool holds one transaction and the UTXO set still holds two hashes |
| LedgerScenarios.CreateCandidateBlockTest | src/blockchain.rs:212-217 | on an empty ledger the candidate is block 1 after the empty hash. It holds only the coinbase paying Alice 50 |
| LedgerScenarios.SecondSpendInPoolRejected | src/blockchain.rs:148-156 | a spendable transaction whose first input is already spent by a pending transaction is refused with `DoubleSpendingError`, and the ledger is unchanged |
| LedgerScenarios.IntraBlockDoubleSpendAccepted | src/blockchain.rs:115-122 | a block holding the same verified transaction twice after its coinbase is accepted and appended |
| LedgerScenarios.RejectedCandidateLosesTransactions | src/blockchain.rs:83-87 | if a candidate fails proof of work, the outcome is `ProofOfWorkError`, the chain is unchanged and the pool stays `old pool[k..]`. So the k drained transactions are not put back |
| LedgerScenarios.CandidateHasCoinbase | src/blockchain.rs:73-81 | acceptance never refuses a candidate with `NotACoinBaseError` |
| LedgerScenarios.UnlinkedBlockAccepted | src/blockchain.rs:97-131 | a block with a wrong index and previous hash is accepted onto an empty chain, which is then not linked |
| LedgerScenarios.RecreatedOutputStaysUnspent | src/blockchain.rs:120-127 | a block whose transaction spends Alice's output of 10 and pays the same output again is accepted. That hash is spent by the block yet still unspent afterwards |

## Left out

- Hashing: `Hashable::hash`, `Transaction::input_hashes` and `output_hashes` are defined in `src/transaction.rs`, which is not part of this model. Output hashes come from an arbitrary `OutputHasher`. Input and output hashes are taken in the order of the transaction's inputs and outputs. If the source collected them into a hash set, the order in which `verify_transaction` meets a bad input would be unspecified.
- `is_coinbase` and `is_spendable` are also defined in `src/transaction.rs`. The model takes a coinbase to be a transaction without inputs, and a spendable transaction to be one whose input total is at least its output total.
- Amounts: `f64` values are modelled as exact `real`s, with no floating-point rounding.
- `Block::new` (hash computation and nonce search) becomes the `BlockSealer` parameter. `check_difficulty` and `U256` comparison become the `DifficultyCheck` parameter.
- `now()`: the coinbase and block timestamps are parameters. No rule depends on them.
- The `println!` logging has no effect on state and is not modelled.
- CreateCandidateBlock: the block index is an unbounded `nat`. The source's `u32` `candidate_index + 1` would overflow after 2^32 - 1 blocks (a panic in debug builds, wrap-around in release).
- `InvalidTransactionError` is declared but no path returns it.
- Concurrency: the ledger is sequential, so there is nothing to model.

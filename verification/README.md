# Verified model of the webchaind core

webchaind is a Go node for the Webchain network. This project models the parts of it that decide which chain a node
follows, what a valid block is, where value and gas go, which transactions wait for a block, and how nodes talk to each
other, and proves properties of them that hold over whole runs. `dafny verify dfyconfig.toml` checks everything.

* **Chain selection.** `Ancestry` defines the path from a header back to genesis and the work along it. `ForkChoice` is
  the fork choice as a state machine over any run of headers, on any forks, with any tie-breaks. `HeaderChain` and
  `BlockChain` are the mutable stores with their number index; `TxIndex` is the transaction and receipt lookup. The
  classes are proved to refine the state machine, and to keep the index equal to the head's ancestry and the lookups
  equal to the canonical chain's transactions.
* **Validity over chains.** `HeaderRules` has header validation, the difficulty and gas-limit formulas and the miner's
  header; `Uncles` shows that a check that looks at seven ancestors protects the whole chain.
* **Value and gas.** `Ledger`, `Execution`, `Transactions`, `Processing` and `Miner` follow value and gas from nested
  calls through transactions to blocks; `Contracts` has what runs leave of code, nonces and storage. A VM run is a
  `Trace`: a tree of gas charges, refunds, self-destructs, calls and creations, so the theorems hold for every program.
  `Rewards` has the era arithmetic and the piecewise reward curve.
* **Transaction pool.** `PoolSteps` says what one pass does to each account; `TxPool` is the pool with its loops over
  maps in arbitrary order; `PoolToBlock` shows that what it keeps ready can be applied. Hashes identify transactions
  (`named`).
* **Networking.** `Feed` is the broadcast over one slice with aliased prefixes; `Protocols` the capability matching of
  two peers; `DialHistory` and `Dial` the dial scheduler over a binary heap; `RlpUint` and `Rlpx` the encrypted frames.

`Types` and `Arithmetic` hold what several of them share. Maps iterated by the source are iterated in arbitrary order;
random tie-breaks, ready channels, incoming requests and clocks are parameters or nondeterministic choices. Integers are
unbounded except where the source's width matters (`Uint64` of a header time, the 32-bit frame size, 64-bit message
codes). Go's `big.Int` division is Euclidean like Dafny's. Hashing is collision-free and hash links are acyclic
(`Writable`, `KeyedDb`, `HashesSound`).

## Where the code differs from its promises

* `insert` promises to move the head header with the head block. After a reorganisation it does so exactly when one
  block was adopted (`HeaderHeadIff`, `HeaderHeadAfterReorg`, `HeaderHeadLags`).
* `HeaderChain.SetHead` keeps side headers. The rewound chain is sound exactly when none of them hangs off a removed
  header and none outweighs the new head (`RewindGoodIff`); with two children of genesis, the heavier adopted, it is not
  (`RewindCanFail`).
* `CalcGasLimit` can leave the consensus band for a non-default target and a parent limit below 6144
  (`MinerGasLimitAcceptedIff`, `MinerGasLimitCanFail`).
* `commitTransactions` refills the gas pool on every call. A call stays within the block's gas limit for all candidates
  exactly when nothing was used before it, or the limit is below the cost of any transaction (`CallStaysWithinIff`,
  `SecondCallCanExceed`).
* An account that self-destructs in favour of itself destroys its balance, and so does a payment to an account that has
  self-destructed in the same transaction. The sum of balances falls by exactly that much (`ExecKeeps`,
  `FinalisedKeeps`, `SelfDestructDestroys`) and not at all where no code self-destructs (`ExecLosesNothing`,
  `QuietBlockRaisesTotalByRewards`).
* Before Homestead a creation that cannot pay for its code reports an error and keeps the value
  (`UnpaidDepositBeforeHomestead`).
* The pool's `addTx` notes that the nonce is always one past the previous. A second transaction with an older nonce
  pulls the tracked nonce back (`TightIff`), and a processable transaction is then left in the queue
  (`ReplacementStallsQueue`).
* The frame writer computes the frame size in 32 bits before it checks it against 24, so a payload of almost 4 GiB
  passes and is lost (`AcceptedIff`, `ReadBackIff`, `LargestPayloadIsLost`).

## Model

| member | source | states |
|---|---|---|
| `Ancestry.PathShape` | core/headerchain.go:169-222 | the ancestry of a stored header starts at genesis, ends at the header, has one entry for each number and is parent-linked |
| `Ancestry.ChainedMerge` | core/headerchain.go:193-207 | two parent-linked paths that agree at a number agree at every lower number, the reason the rewrite walk may stop early |
| `Ancestry.PathStable` | core/headerchain.go:169-183 | storing further headers does not move the ancestry of a stored one |
| `ForkChoice.WriteKeepsGood` | core/headerchain.go:169-222 | a write on any fork with any legal tie-break keeps the head heaviest, every stored total difficulty equal to the work along its ancestry, and every earlier difficulty |
| `ForkChoice.RunKeepsGood` | core/headerchain.go:169-222 | the same over every run, and the followed total difficulty never falls |
| `ForkChoice.EveryRunFollowsHeaviest` | core/headerchain.go:169-222 | from genesis, whatever arrived in whatever order, the head outweighs everything stored |
| `ForkChoice.NodesAgreeOnDifficulty` | core/headerchain.go:407-429 | two nodes that stored the same headers follow heads of equal total difficulty, whatever their orders and tie-breaks |
| `HeaderChain.HeaderChain.constructor` | core/headerchain.go:132-226 | a chain of genesis alone |
| `HeaderChain.HeaderChain.CanonIsAncestry` | core/headerchain.go:185-222 | read off the database: numbers are assigned exactly up to the head's, each to the header of that number, each the child of the one below |
| `HeaderChain.HeaderChain.DifficultiesAddUp` | core/headerchain.go:169-183 | the stored difficulty of every header is its own added to its parent's, from genesis on, and none passes the head's |
| `HeaderChain.HeaderChain.WriteHeader` | core/headerchain.go:132-226 | refines the fork choice and adopts exactly a heavier header, or an equally heavy one by the coin; the number index is afterwards exactly the ancestry of the head, gap-free and with nothing above it; an unknown parent is refused without change |
| `HeaderChain.HeaderChain.AdoptHeader` | core/headerchain.go:188-219 | the index of the old head's ancestry becomes the index of the new head's |
| `HeaderChain.HeaderChain.TruncateAbove` | core/headerchain.go:189-192 | the delete loop ends and removes exactly the numbers above the new head |
| `HeaderChain.HeaderChain.Reroute` | core/headerchain.go:193-207 | the rewrite walk ends and leaves every number below the new head on the new ancestry although it stops at the first agreement |
| `HeaderChain.HeaderChain.SetHead` | core/headerchain.go:520-551 | the head is at the target or where it was if that is lower; exactly the numbers above the target and the canonical headers of those numbers are removed |
| `HeaderChain.RewindGoodIff` | core/headerchain.go:520-551 | the rewound chain is sound if and only if no side header hangs off a removed header and no side header outweighs the new head; the kept canonical headers take care of themselves |
| `HeaderChain.RewindCanFail` | core/headerchain.go:520-551 | for every two children of genesis of different difficulty, both imported, the chain is sound and its rewind to genesis is not |
| `BlockChain.WalkDown` | core/blockchain.go:1801-1822 | one side of reorg's first phase collects the blocks above a number, never runs out of blocks |
| `BlockChain.SplitChains` | core/blockchain.go:1777-1842 | the two-phase walk always finds the highest common block and never reports an invalid chain |
| `BlockChain.SplitIndex` | core/blockchain.go:1869-1873 | inserting the new chain top-down puts the number index on the new ancestry |
| `BlockChain.HeaderHeadIff` | core/blockchain.go:1047-1069 | the head header follows the head block after a reorganisation if and only if the adopted blocks below the top were assigned already and the top was not, or was the head header |
| `BlockChain.HeaderHeadAfterReorg` | core/blockchain.go:1871-1873 | otherwise it stays at the lowest adopted block, so it is the head exactly when one block was adopted |
| `BlockChain.HeaderHeadLags` | core/blockchain.go:1047-1069 | two blocks replacing one leave it a block behind |
| `BlockChain.MovedHeaderLags` | core/blockchain.go:1047-1069 | and so of any adopted block: if blocks were abandoned and adopted, the head header is the lowest adopted block's |
| `BlockChain.TxDifference` | core/types/transaction.go:277-292 | the transactions of one list that are not in the other |
| `BlockChain.RemovedTxs` | core/blockchain.go:1904-1915 | reorg announces and deletes exactly what the old path had and the new path lacks |
| `BlockChain.LookupsMoved` | core/blockchain.go:1869-1911 | adopting the new chain's rows and deleting the removed ones moves both lookups from the old path to the new |
| `BlockChain.StoredTxsOk` | core/blockchain.go:1667-1696 | storing an admissible block keeps every stored path free of repeated transactions |
| `BlockChain.WithinAdmissible` | core/blockchain.go:1536-1772 | a block of a fixed collection without repeats is admissible whenever its parent is stored |
| `BlockChain.CheckContiguous` | core/blockchain.go:1536-1549 | accepts exactly the parent-linked sequences |
| `BlockChain.ContiguousIff` | core/blockchain.go:1536-1549 | a sequence is contiguous when every block but the first is a child of the one before it |
| `BlockChain.BlockChain.constructor` | core/blockchain.go:1047-1069 | a chain of genesis alone, with all three heads at genesis and nothing set aside |
| `BlockChain.BlockChain.TxFoundIff` | core/database_util.go:369-406 | in every reachable chain a transaction is looked up at a block, number and index if and only if the canonical block of that number has it at that index |
| `BlockChain.BlockChain.ReceiptFoundIff` | core/database_util.go:409-429 | and a receipt if and only if it is one of the canonical block's receipts |
| `BlockChain.BlockChain.CanonIsAncestry` | core/blockchain.go:1047-1069 | read off the database: every number up to the head's is assigned the block of that number, each the child of the one below |
| `BlockChain.BlockChain.DifficultiesAddUp` | core/blockchain.go:1482-1500 | the stored difficulty of every block is its own added to its parent's, and none passes the current block's |
| `BlockChain.BlockChain.HeadHeaviest` | core/blockchain.go:1482-1527 | nothing written outweighs the current block |
| `BlockChain.BlockChain.InsertHead` | core/blockchain.go:1047-1069 | the number and head block after one insert; head header and fast block move with them exactly when the number was not assigned to the block before |
| `BlockChain.BlockChain.WriteTransactions` | core/database_util.go:369-406 | every transaction of the block is looked up at its block, number and index; others keep theirs |
| `BlockChain.BlockChain.WriteReceipts` | core/database_util.go:409-429 | likewise for receipts |
| `BlockChain.BlockChain.DeleteTxs` | core/database_util.go:465-473 | removes exactly the listed transactions and receipts |
| `BlockChain.BlockChain.Reorg` | core/blockchain.go:1777-1930 | afterwards numbers 0 to head are the new ancestry, the lookups are those of the new path, and the removed transactions are announced |
| `BlockChain.BlockChain.AdoptHead` | core/blockchain.go:1509-1517 | the canonical branch of WriteBlock, with and without a reorganisation |
| `BlockChain.BlockChain.WriteBlock` | core/blockchain.go:1443-1532 | refines the fork choice, becoming head exactly by the difficulty rule and its tie-breaks; numbers 0 to head are exactly the head's ancestry; the three heads and where the head header lags; side blocks touch no lookup or head; an unknown parent is refused without change; the block is no longer set aside |
| `BlockChain.BlockChain.ProcessBlock` | core/blockchain.go:1667-1696 | receipts, block and lookups of one processed block; after it the lookups hold exactly the canonical chain's transactions and receipts, and the heads are as WriteBlock leaves them |
| `BlockChain.BlockChain.CheckBlock` | core/blockchain.go:1595-1628 | which blocks are refused, known or set aside before processing, and that nothing but the set of blocks set aside changes |
| `BlockChain.BlockChain.InsertBlock` | core/blockchain.go:1562-1725 | the per-block part of an import: failing seal, known, orphan, future, queued behind a queued parent, refused and inserted blocks, each with its effect on the whole state and all heads |
| `BlockChain.BlockChain.InsertChain` | core/blockchain.go:1536-1772 | every import, also one that queues blocks or is interrupted, keeps index and lookups exact, never lowers the followed difficulty and never loses a stored difficulty; on success every block is stored or set aside |
| `HeaderRules.CalcDifficulty` | core/block_validator.go:272-376 | never below the minimum |
| `HeaderRules.DifficultyStep` | core/block_validator.go:272-376 | a block lowers the difficulty by at most a tenth and raises it by at most a hundredth or to the floor |
| `HeaderRules.DifficultyExact` | core/block_validator.go:303-376 | the exact difficulty: by how many two-hundredths it moves for every time gap, at least 10000 |
| `HeaderRules.ValidateHeader` | core/block_validator.go:221-267 | accepts exactly the headers that meet every rule |
| `HeaderRules.FirstRuleDecides` | core/block_validator.go:221-267 | each of the eight errors is reported exactly when its rule is the first one broken |
| `HeaderRules.DifficultyBalances` | core/block_validator.go:303-376 | difficulty rises exactly for a block within 10 seconds (9, or 18 on a parent with uncles), stays for one interval, then falls, by a tenth from 20 intervals later on |
| `HeaderRules.DifficultyFallsWithTime` | core/block_validator.go:303-376 | a later timestamp never raises the difficulty, under either algorithm |
| `HeaderRules.ChainDifficulty` | core/block_validator.go:221-267 | on every valid chain numbers and times rise by at least one a block and difficulty falls by at most a tenth a block |
| `HeaderRules.ChainGasLimit` | core/block_validator.go:244-252 | on every valid chain the gas limit stays above the floor and within (1 +- 1/1024)^n |
| `HeaderRules.GasLimitExact` | core/block_validator.go:381-409 | the exact next limit for every limit, usage and target |
| `HeaderRules.GasLimitRisesIff` | core/block_validator.go:390-397 | above target and floor the limit rises exactly when usage passes about two thirds |
| `HeaderRules.MinerGasLimitAcceptedIff` | core/block_validator.go:381-409 | the miner's limit passes validation if and only if usage does not push it a full step up or the target pulls it back; always from a limit of 6144 on |
| `HeaderRules.MinerGasLimitCanFail` | core/block_validator.go:381-409 | a parent of 5000, full, with target 5000 fails |
| `HeaderRules.DefaultTargetAccepted` | core/block_validator.go:244-252 | with the default target the limit always passes |
| `HeaderRules.MinedHeader` | miner/worker.go:459-482 | the header built on a parent links to it and is later than it |
| `HeaderRules.MinedHeaderValid` | core/block_validator.go:221-267 | for every parent with a limit of at least 5000 the header built by the miner passes every check but those of clock and proof of work |
| `HeaderRules.IdleLimitReachesTarget` | core/block_validator.go:381-409 | empty blocks bring any limit to the target in finitely many blocks and hold it there |
| `Uncles.GetBlocksFromHash` | core/blockchain.go:1155-1165 | the blocks from a hash down, at most n, stopping at a missing one |
| `Uncles.CollectWindow` | core/block_validator.go:162-170 | the two tables hold exactly the window's blocks and uncles |
| `Uncles.VerifyUncles` | core/block_validator.go:156-201 | accepts exactly the blocks whose uncles are at most two, new, not ancestors, off the parent and valid on a window block; otherwise reports too many, or the first uncle that fails |
| `Uncles.AcceptedUnclesIff` | core/block_validator.go:156-201 | on top of a verified chain the uncles pass if and only if they are at most two, different, each a valid child of a chain block two to seven below, and new among the last seven blocks and all their uncles |
| `Uncles.UncleAge` | core/block_validator.go:174-198 | an accepted uncle forks off within the window |
| `Uncles.NoUncleTwice` | core/block_validator.go:156-201 | on every chain whose blocks each passed, no uncle is included twice anywhere on the chain |
| `Uncles.UncleNotOnChain` | core/block_validator.go:156-201 | on every such chain no included uncle is itself a block of the chain |
| `Rewards.BlockEraIsQuotient` | core/state_processor.go:249-262 | the era arithmetic is the quotient (number - 1) / length |
| `Rewards.CurveIsFloor` | core/state_processor.go:202-245 | the integer curve is the floor of 50e18 * 0.996^era |
| `Rewards.WinnerRewardBelowCurve` | core/state_processor.go:202-245 | in every branch the reward is at least zero and at most the curve of its own era |
| `Rewards.WinnerRewardOnCurve` | core/state_processor.go:202-229 | the exact reward where it follows the curve: eras below 33, 45 to 49 with 475 eras and from 56 on with 865 eras skipped, as 50e18 * 0.996^n rounded down |
| `Rewards.WinnerRewardListed` | core/state_processor.go:231-243 | the exact reward where it does not: three equal steps from era 32, and the fifteen listed amounts |
| `Rewards.UncleShareExact` | core/state_processor.go:178-182 | a share is a thirty-second of the winner's reward, rounded down |
| `Rewards.WinnerRewardFalls` | core/state_processor.go:202-245 | the reward never rises from one era to the next, across every seam |
| `Rewards.WinnerIssuanceBounded` | core/state_processor.go:202-262 | winner rewards of any number of blocks sum to less than 1.25e27 |
| `Rewards.TotalIssueNineEighths` | core/state_processor.go:152-198 | with at most two uncles a block all rewards are at most nine eighths of the winner's |
| `Rewards.TotalIssueBounded` | core/state_processor.go:152-198 | and so sum to less than nine eighths of 1.25e27 |
| `Ledger.TotalTransfer` | core/execution.go:310-313 | a transfer keeps the sum of balances, also to oneself |
| `Ledger.HeldApart` | core/state/statedb.go:540-563 | the sum of balances splits into what any set of accounts holds and the rest |
| `Execution.ExecKeeps` | core/execution.go:47-307 | over every nested tree of calls and creations the sum of balances falls by exactly what accounts that self-destruct to themselves destroy in runs that are not undone, no balance goes negative and gas left never exceeds gas given |
| `Execution.CallKeeps` | core/execution.go:47-222 | the same for each of the four calls |
| `Execution.CreateKeeps` | core/execution.go:225-307 | the same for a creation |
| `Execution.ExecLosesNothing` | core/execution.go:47-307 | a tree without self-destructs destroys nothing and marks no account, so the sum of balances is unchanged |
| `Execution.CallLosesNothing` | core/execution.go:47-222 | the same for each of the four calls |
| `Execution.CreateLosesNothing` | core/execution.go:225-307 | the same for a creation |
| `Execution.SelfDestructDestroys` | core/vm/instructions.go:644-650 | a call to code that self-destructs to itself lowers the sum of balances by what it held and was sent |
| `Execution.FailedCallRestores` | core/execution.go:47-222 | a call that ends in an error leaves the state exactly as it found it, and what gas it returns |
| `Execution.PlainCallMovesValue` | core/execution.go:47-222 | a call whose code returns at once moves its value from caller to callee for a plain call and nowhere for the other kinds |
| `Execution.FailedCreateRestores` | core/execution.go:225-307 | a failed creation leaves only the creator's nonce one higher, with the one exception before Homestead |
| `Execution.UnpaidDepositBeforeHomestead` | core/execution.go:276-295 | that exception happens: the contract keeps the value although an error is reported |
| `Contracts.RunLasts` | core/execution.go:47-307 | over every nested tree an account that has code keeps exactly that code, and no nonce falls |
| `Contracts.CallLasts` | core/execution.go:47-222 | the same for each of the four calls |
| `Contracts.CreateTakesNonce` | core/execution.go:239-242 | a creation that starts takes its creator's nonce for good, even if it fails |
| `Contracts.CreatedContract` | core/execution.go:225-307 | after every successful creation, whatever ran, the new account has exactly the returned code, its nonce has left zero from the second hard fork on, and the creator's nonce is higher |
| `Contracts.PlainCreateSucceedsIff` | core/execution.go:225-295 | when code that returns at once becomes a contract: depth, funds, a free address, 200 gas a byte, at most 24576 bytes from the second hard fork on |
| `Contracts.PlainCreateErrors` | core/execution.go:271-295 | and which error it reports otherwise |
| `Contracts.PlainCreateStores` | core/execution.go:225-295 | every account after it: code, nonce, balance and storage of the new one, nonce and balance of the creator, no other changed; and the gas left |
| `Contracts.CallErrorsIff` | core/execution.go:47-222 | a call is refused for depth exactly past 1024, and for funds exactly when it carries more value than there is |
| `Contracts.CreateErrorsIff` | core/execution.go:225-260 | likewise for a creation, and for a taken address |
| `Contracts.CalleeCreatedIff` | core/execution.go:67-79 | which plain calls leave the callee's account behind |
| `Contracts.ReadOnlyRun` | core/vm/vm.go:67-148 | from the second hard fork on a read-only run changes no account, at any depth of nested calls |
| `Contracts.ReadOnlyCall` | core/execution.go:180-222 | so a static call changes none, and neither does any call made under one |
| `Contracts.OthersAreIsolated` | core/execution.go:47-307 | a contract that is not called keeps its code, nonce and storage, whatever else runs |
| `Contracts.CallWritesWhere` | core/execution.go:103-222 | a plain or static call writes the callee's storage, the other two the caller's |
| `Contracts.StraightRun` | core/vm/vm.go:137-172 | straight-line code uses exactly the gas it burns, collects the refunds it frees and leaves the last word it wrote |
| `Contracts.StraightFails` | core/vm/vm.go:150-154 | and fails when it is given less gas |
| `Contracts.CallEnds` | core/execution.go:91-99 | a reverted call is undone and gives back its gas, a failed one is undone and takes it |
| `Contracts.CreateEnds` | core/execution.go:283-307 | likewise for a creation, which keeps the nonce taken |
| `Contracts.CallCharges` | core/vm/instructions.go:526-624 | a call instruction charges the gas handed over and at least 9000 for value, comes with 2300, gives back what is left, and what follows runs either way |
| `Contracts.CreateCharges` | core/vm/instructions.go:494-524 | likewise for a creation |
| `Contracts.SelfDestructPays` | core/vm/instructions.go:644-650 | a self-destruct in favour of another account moves the whole balance there and marks the account |
| `Execution.Env.DoCall` | core/execution.go:47-100 | refines the call with snapshot and revert on one mutable state |
| `Execution.Env.DoCallCode` | core/execution.go:103-137 | likewise |
| `Execution.Env.DoDelegateCall` | core/execution.go:140-177 | likewise |
| `Execution.Env.DoStaticCall` | core/execution.go:180-222 | likewise |
| `Execution.Env.Enter` | core/vm/instructions.go:526-624 | the call instructions: which of the four calls is made, with the stipend for a call that carries value |
| `Execution.Env.DoCreate` | core/execution.go:225-307 | likewise for a creation, with address collision and code deposit |
| `Execution.Env.StoreCode` | core/execution.go:271-307 | the code deposit: paid and stored, too large, unpaid, or undone |
| `Execution.Env.MoveValue` | core/execution.go:310-313 | moves value between two accounts, which may be one |
| `Execution.Env.SelfDestructTo` | core/vm/instructions.go:644-650 | the balance goes to the beneficiary, and is destroyed when that is the account itself |
| `Transactions.IntrinsicGas` | core/state_transition.go:85-107 | the byte loop computes the intrinsic gas |
| `Transactions.IntrinsicBase` | core/state_transition.go:85-93 | 53000 for a creation from Homestead on, otherwise 21000 |
| `Transactions.IntrinsicByte` | core/state_transition.go:94-105 | one more byte costs 4 if it is zero and 68 otherwise, wherever it stands |
| `Transactions.IntrinsicPieces` | core/state_transition.go:94-105 | the cost of two pieces of data adds up above the base |
| `Transactions.AppliedKeeps` | core/state_transition.go:165-294 | the sum of balances falls by exactly what the run destroys: what the sender prepays equals its refunds plus the coinbase fee, also when they are one account; gas used is between half the intrinsic gas and the limit; the pool gets back what was not used |
| `Transactions.MessageAppliedIff` | core/state_transition.go:165-269 | a message is applied if and only if its sender is known, its nonce is next, gas and value are covered together, the pool has the gas and the gas covers the intrinsic cost |
| `Transactions.GasCharged` | core/state_transition.go:245-290 | it is charged what its run took less what the run freed, but at least half rounded up; the sender gets the rest back, the coinbase is paid, nothing else changes |
| `Transactions.NonceSpent` | core/state_transition.go:218-243 | an applied message takes its sender's nonce for good, whatever its run does, and no nonce falls |
| `Transactions.MessageLosesNothing` | core/state_transition.go:212-269 | a message whose run never self-destructs destroys nothing |
| `Transactions.TransferPays` | core/state_transition.go:212-269 | in a plain transfer the sender pays value and intrinsic gas, the coinbase earns the gas, the recipient the value, whichever of them coincide |
| `Transactions.RejectedPool` | core/state_transition.go:165-269 | a rejected message never adds gas to the pool and takes none unless it got past buying gas |
| `Transactions.GasPool.AddGas` | core/gaspool.go:27-31 | adds to the pool |
| `Transactions.GasPool.SubGas` | core/gaspool.go:35-42 | takes from the pool exactly when it suffices |
| `Transactions.StateTransition.UseGas` | core/state_transition.go:152-159 | takes from the message's gas exactly when it suffices |
| `Transactions.StateTransition.PreCheck` | core/state_transition.go:165-209 | the first failing check decides, and nothing is bought on failure |
| `Transactions.StateTransition.RefundGas` | core/state_transition.go:271-290 | unused gas and at most half the used gas go back to the sender, unused gas to the pool |
| `Transactions.StateTransition.TransitionDb` | core/state_transition.go:212-269 | refines the message semantics on the mutable environment and pool |
| `Processing.Finalise` | core/state/statedb.go:540-563 | deletes exactly the self-destructed and, from Atlantis on, the empty touched accounts |
| `Processing.FinalisedAccounts` | core/state/statedb.go:540-563 | which accounts are left, unchanged: all but the self-destructed and, from Atlantis on, the touched ones without nonce, balance and code |
| `Processing.FinalisedKeeps` | core/state/statedb.go:540-563 | the sum of balances falls by exactly what self-destructed accounts hold; deleting empty ones loses nothing |
| `Processing.EveryPrefixInStep` | core/state_processor.go:62-146 | after every prefix of a block pool gas plus gas used is the block limit, receipts carry the running sums, each transaction uses between half its intrinsic gas and its limit, and the sum of balances has fallen by exactly what self-destruction destroyed |
| `Processing.TxsLoseNothing` | core/state_processor.go:62-146 | transactions whose runs never self-destruct destroy nothing |
| `Processing.EraOfBlock` | core/state_processor.go:249-262 | the era of a block is (number - 1) / 100000 |
| `Processing.WinnerRewardForUncles` | core/state_processor.go:191-198 | one share for each uncle |
| `Processing.AccumulateRewards` | core/state_processor.go:152-176 | credits uncles' miners and the winner |
| `Processing.RewardedTotal` | core/state_processor.go:152-176 | the sum of balances rises by exactly the rewards, also when several go to one account |
| `Processing.RewardedBalance` | core/state_processor.go:152-176 | everyone earns one share for each uncle of theirs, the block's miner the winner's reward and one share for each uncle |
| `Processing.BlockRaisesTotalByRewards` | core/state_processor.go:62-102 | processing any valid block raises the sum of balances by exactly winner and uncle rewards, less what self-destruction destroyed |
| `Processing.QuietBlockRaisesTotalByRewards` | core/state_processor.go:62-102 | and by exactly the rewards when no code self-destructs |
| `Processing.NoReplayInBlock` | core/state_processor.go:62-146 | in a block without self-destructs the nonces of each sender's transactions rise, so none is applied twice |
| `Processing.ReceiptTells` | core/state_processor.go:109-146 | a receipt tells what its message used, the running sum and whether its run failed |
| `Processing.ApplyTx` | core/state_processor.go:109-146 | refines the application of one transaction |
| `Processing.Process` | core/state_processor.go:62-102 | refines the processing of a block, with its failure cases |
| `Miner.PoolMonotone` | miner/worker.go:692-715 | more gas in the pool changes nothing about a transaction that goes through |
| `Miner.CommitBounds` | miner/worker.go:610-690 | one call adds no more gas than the pool it starts with, whatever the candidates |
| `Miner.CommitReplays` | miner/worker.go:610-690 | if the block under construction replays from its parent's state, it still does after any call |
| `Miner.TurnExactly` | miner/worker.go:616-683 | exactly what one turn of the loop does to every part of the session: committed, sender stopped, removed, or sender passed over for its price |
| `Miner.IncludedPay` | miner/worker.go:616-650 | over a whole call everything added was offered, its protection understood, and it pays the price or is the node's own; no account of the node is passed over for its price |
| `Miner.PassedOverStaysOut` | miner/worker.go:640-661 | once a sender is passed over or stopped nothing of theirs is added any more |
| `Miner.Work.CommitTransaction` | miner/worker.go:692-715 | a transaction is applied and recorded, or undone with an error |
| `Miner.Work.CommitTransactions` | miner/worker.go:610-690 | refines the loop over any candidates, with its senders skipped for price, replay protection or an exhausted pool and its failing transactions dropped; on a fresh header the block built replays through block processing to the same state, receipts and gas, within the limit |
| `Miner.Work.Consider` | miner/worker.go:616-683 | one turn of the loop: skipped, dropped, ignored from now on, or committed |
| `Miner.CallStaysWithinIff` | miner/worker.go:610-611 | a call stays within the block's gas limit for every price and all candidates if and only if no gas was used before it, or the limit is below the cost of any transaction and not passed yet |
| `Miner.SecondCallCanExceed` | miner/worker.go:610-611 | from every other state there are candidates that take the call past the limit |
| `PoolSteps.MovedBacked` | core/tx_pool.go:500-561 | after a check every nonce below the tracked one is pending |
| `PoolSteps.TightIff` | core/tx_pool.go:363-380 | the tracked nonce is past every pending one after a check if and only if nothing live is queued at or below it, or something is at it or right below it |
| `PoolSteps.ReplacementStallsQueue` | core/tx_pool.go:363-380 | promoting a second transaction with nonce 0 pulls the tracked nonce back to 1 and leaves nonce 2 queued behind pending 0 and 1 |
| `PoolSteps.QueuedBehindGap` | core/tx_pool.go:532-556 | from a tight tracked nonce, what stays queued waits behind a nonce nobody has pending |
| `PoolSteps.ValidatedGapFree` | core/tx_pool.go:568-616 | validation under a state whose nonces have not gone back keeps the pending set gap-free |
| `PoolSteps.CheckKeepsGapFree` | core/tx_pool.go:500-561 | a check of all queues keeps pending gap-free from each state nonce, tracked nonces backed, and pending and queue disjoint |
| `PoolSteps.CheckConserves` | core/tx_pool.go:500-561 | a check loses only what the state cannot take and what 64 transactions with no higher nonce crowd out |
| `PoolSteps.CheckSettles` | core/tx_pool.go:500-561 | after a check each queue has at most 64 transactions, all live and past the tracked nonce |
| `PoolSteps.SettledStays` | core/tx_pool.go:500-561 | checking a settled pool changes nothing |
| `PoolSteps.CheckLeavesGaps` | core/tx_pool.go:500-561 | from tight tracked nonces, whatever stays queued is behind a real gap |
| `TxPool.ValidateTx` | core/tx_pool.go:237-310 | accepts exactly the transactions with price, sender, account, nonce, gas, value, funds and intrinsic gas in order |
| `TxPool.FirstCheckDecides` | core/tx_pool.go:237-310 | each of the eight errors is reported exactly when its check is the first to fail |
| `TxPool.CollectLive` | core/tx_pool.go:519-531 | whatever the order, exactly the live transactions remain and are listed once |
| `TxPool.SortedCut` | core/tx_pool.go:532-555 | stopping at the first nonce past the guess cuts the queue exactly where the run of nonces ends |
| `TxPool.DropCrowded` | core/tx_pool.go:537-547 | everything past the allowed number goes |
| `TxPool.EnqueuedAllHashes` | core/tx_pool.go:395-410 | what a batch adds to each account's queue |
| `TxPool.TxPool.AddTx` | core/tx_pool.go:363-380 | a pool without tracked nonces is reset first, conserving its transactions; then an unknown transaction becomes pending and sets the tracked nonce to its own plus one, a known one changes nothing |
| `TxPool.TxPool.CheckAccount` | core/tx_pool.go:507-560 | one account through a check, all others untouched |
| `TxPool.TxPool.CheckQueues` | core/tx_pool.go:506-561 | whatever the order, each account's queue is cut as `CheckedAll` says |
| `TxPool.TxPool.ValidatePool` | core/tx_pool.go:568-616 | exactly the live transactions below the first unfunded one of their account stay, the live ones from it on go back to the queue |
| `TxPool.TxPool.BaseNonces` | core/tx_pool.go:157-167 | the tracked nonces are backed by and past all pending ones |
| `TxPool.TxPool.ResetState` | core/tx_pool.go:138-171 | a new head keeps the pool gap-free and disjoint, conserves transactions, and leaves queued only what is behind a gap |
| `TxPool.TxPool.CheckQueue` | core/tx_pool.go:500-561 | with the lazy first reset |
| `TxPool.TxPool.Enqueue` | core/tx_pool.go:313-360 | the verdict on a transaction, and the queue it goes to |
| `TxPool.TxPool.Add` | core/tx_pool.go:383-392 | on success a check follows, on an error nothing changes |
| `TxPool.TxPool.AddTransactions` | core/tx_pool.go:395-410 | exactly the acceptable ones are queued, then one check |
| `TxPool.TxPool.GetTransactions` | core/tx_pool.go:433-449 | every pending transaction, once |
| `TxPool.TxPool.RemoveTx` | core/tx_pool.go:482-497 | out of whichever set held it, the sets stay disjoint |
| `PoolToBlock.PendingStartsNow` | core/tx_pool.go:500-561 | every account with pending transactions has one with exactly the account's nonce |
| `PoolToBlock.NextInLineApplies` | core/state_transition.go:165-269 | and that one is applied, if it was validated and the block has its gas left |
| `PoolToBlock.AcceptedApplies` | core/tx_pool.go:237-310 | a transaction the pool accepts is applied when it is next in line, and refused otherwise just for its nonce |
| `Feed.Deactivated` | event/feed.go:233-237 | the swap takes exactly one case out of the active prefix and none out of the list |
| `Feed.Deleted` | event/feed.go:228-230 | the shift takes one case out of the list, and out of the prefix exactly when it was in it |
| `Feed.ExactlyOnce` | event/feed.go:129-190 | a channel subscribed once beforehand gets the value once unless it left while waiting |
| `Feed.NobodyElse` | event/feed.go:129-190 | no later subscriber gets anything and nobody gets another value |
| `Feed.Feed.Subscribe` | event/feed.go:73-93 | the channel waits in the inbox |
| `Feed.Feed.Find` | event/feed.go:218-225 | the first case of a channel |
| `Feed.Feed.Delete` | event/feed.go:228-230 | the in-place shift |
| `Feed.Feed.Deactivate` | event/feed.go:233-237 | the in-place swap |
| `Feed.Feed.Unsubscribe` | event/feed.go:104-125 | one subscription of the channel goes, the inbox's first |
| `Feed.Feed.TakeInbox` | event/feed.go:135-138 | the new channels follow the old ones |
| `Feed.Feed.Send` | event/feed.go:129-190 | deliveries plus cancelled waiting subscriptions are exactly the subscriptions at the start, the count is the number of deliveries, and only requested cases leave the list |
| `Feed.Feed.SendLoop` | event/feed.go:155-182 | the loop ends: active cases plus cases fall with every delivery and removal |
| `Feed.Feed.TryPass` | event/feed.go:159-165 | the non-blocking pass serves each ready case once |
| `Feed.Feed.Select` | event/feed.go:169-181 | one blocking step serves a case or honours a request |
| `Protocols.BeforeTotal` | p2p/protocol.go:79-81 | the order of names is total |
| `Protocols.BeforeTransitive` | p2p/protocol.go:79-81 | and transitive |
| `Protocols.BeforeIff` | p2p/protocol.go:79-81 | the order is decided at the first difference, a prefix first |
| `Protocols.SortCapsSorted` | p2p/protocol.go:75-81 | sorting orders capabilities by name and version |
| `Protocols.LookupFirst` | p2p/peer.go:318-321 | of several protocols with one name and version the first counts |
| `Protocols.MatchProtocols` | p2p/peer.go:310-332 | the loop computes, for each common name, its highest common version and ranges tiled from 16 in name order |
| `Protocols.RunsHighestCommon` | p2p/peer.go:310-332 | a name runs if and only if a version of it is announced and known, and then in the highest such version |
| `Protocols.RangesInNameOrder` | p2p/peer.go:310-332 | the ranges lie behind the base protocol's sixteen codes in the order of names |
| `Protocols.CommonCaps` | p2p/peer.go:318-329 | both sides find the same capabilities in common |
| `Protocols.TablesAgree` | p2p/peer.go:310-332 | two peers whose common protocols have equal lengths compute the same names, versions and ranges |
| `Protocols.OneHandler` | p2p/peer.go:358-365 | every code of the tiled range has exactly one handler and every other code none |
| `Protocols.GetProto` | p2p/peer.go:358-365 | finds a handler if and only if there is one, in any order |
| `Protocols.WireCode` | p2p/peer.go:377-381 | a code is sent if and only if it is below the protocol's length, inside the protocol's range |
| `Protocols.CodesTravel` | p2p/peer.go:377-404 | what one peer writes, the other reads under the same protocol only, with the same code |
| `DialHistory.FirstIsMin` | p2p/dial.go:316-318 | the first entry expires first |
| `DialHistory.DialHistory.Add` | p2p/dial.go:319-322 | adds one entry and keeps the heap |
| `DialHistory.DialHistory.RemoveAt` | p2p/dial.go:323-331 | takes out one entry and keeps the heap |
| `DialHistory.DialHistory.Remove` | p2p/dial.go:323-331 | forgets a node if it is remembered |
| `DialHistory.DialHistory.Contains` | p2p/dial.go:332-339 | whether a node is remembered |
| `DialHistory.DialHistory.Expire` | p2p/dial.go:340-344 | removes all expired entries and no other |
| `Dial.NotRedialed` | p2p/dial.go:132-144 | a node that is not remembered finished its last dial more than 30 seconds ago |
| `Dial.DynamicDialsWithinLimit` | p2p/dial.go:147-200 | one turn starts no more dynamic dials than are missing, counting connected peers and dials under way |
| `Dial.DialState.AddStatic` | p2p/dial.go:118-122 | adds a static node |
| `Dial.DialState.RemoveStatic` | p2p/dial.go:124-130 | removes it and its dial record |
| `Dial.DialState.DialDone` | p2p/dial.go:208-212 | the node leaves the dials in flight and enters the history |
| `Dial.DialState.DiscoverDone` | p2p/dial.go:213-216 | the results follow those left over |
| `Dial.DialState.NewTasks` | p2p/dial.go:132-206 | no node gets a second dial in flight, none dialed is connected or remembered or was dialed in the last 30 seconds, every dial is of a static node and marked so or dynamic and of a random node or lookup result, lookup results are used from the front, dynamic connections and dials do not pass the maximum, static nodes are served, a lookup starts exactly when more candidates are needed, and the timer waits for the first expiry |
| `RlpUint.DecodeEncode` | rlp/encode.go:392-406 | decoding undoes encoding, whatever follows |
| `RlpUint.EncodeDecode` | rlp/decode.go:696-727 | only the canonical form is accepted |
| `RlpUint.EncodedBytes` | rlp/encode.go:392-406 | the encoding byte by byte: the digits in base 256, highest first and not zero, behind their number |
| `Rlpx.XorTwice` | p2p/rlpx.go:523-529 | combining twice with one key byte gives the byte back |
| `Rlpx.XorBit` | p2p/rlpx.go:523-529 | bit by bit: set exactly where the two bytes differ |
| `Rlpx.XorSymmetric` | p2p/rlpx.go:523-529 | the order does not matter |
| `Rlpx.XorZeroIff` | p2p/rlpx.go:523-529 | the result is zero exactly for equal bytes |
| `Rlpx.XorSeq` | p2p/rlpx.go:523-529 | element by element |
| `Rlpx.Int24RoundTrip` | p2p/rlpx.go:679-687 | 24-bit sizes are read back |
| `Rlpx.FrameRoundTrip` | p2p/rlpx.go:576-665 | a frame that fits 24 bits is read back and leaves reader and writer in the same keystream position and MAC state |
| `Rlpx.FrameShape` | p2p/rlpx.go:576-616 | a frame is whole blocks: header and tag, content padded by less than a block, and tag; keystream and MAC advance by exactly what is encrypted and taken in |
| `Rlpx.HeaderOnWire` | p2p/rlpx.go:585-592 | the decrypted header: three size bytes, high first, then 0xC28080 and zeros |
| `Rlpx.ContentOnWire` | p2p/rlpx.go:594-612 | the decrypted content: code, payload, and zeros up to the next whole block |
| `Rlpx.TagsOnWire` | p2p/rlpx.go:585-616 | what the MAC hash takes in, byte by byte, and that each tag is the front of the digest at that point |
| `Rlpx.AcceptedIsAuthentic` | p2p/rlpx.go:618-665 | an accepted frame carries both tags over exactly the bytes read and the MAC state before them |
| `Rlpx.AcceptedContent` | p2p/rlpx.go:631-664 | and its content is the message, of the length the header announces |
| `Rlpx.HeaderRefusedIff` | p2p/rlpx.go:624-630 | a header is refused exactly when its tag is not the digest |
| `Rlpx.AcceptedIff` | p2p/rlpx.go:576-584 | the writer accepts exactly what fits 24 bits or overflows 32 |
| `Rlpx.ReadBackIff` | p2p/rlpx.go:576-665 | an accepted message is read back if and only if it fits 24 bits |
| `Rlpx.LargestPayloadIsLost` | p2p/rlpx.go:576-584 | a message of code 1 with a payload of one byte less than 4 GiB is written and not read back |
| `Rlpx.ConversationRoundTrip` | p2p/rlpx.go:576-665 | every sequence of messages that fit is read back in order, in step after it and so after each frame |
| `Rlpx.SecretsCrossed` | p2p/rlpx.go:230-259 | both sides derive the same keys, and the MAC hash one side writes with, the MAC secret combined with the other's nonce and the packet sent, is the one the other reads with |
| `Rlpx.HandshakeThenConversation` | p2p/rlpx.go:230-259 | from the secrets both sides derive, in both directions, the same holds |
| `Rlpx.FrameRW.XorKeyStream` | p2p/rlpx.go:587-587 | the in-place encryption of a buffer's front |
| `Rlpx.FrameRW.UpdateMac` | p2p/rlpx.go:669-677 | the hash takes in the encrypted digest combined with the seed byte by byte, and the tag is the front of the new digest |
| `Rlpx.FrameRW.WriteMsg` | p2p/rlpx.go:576-616 | refines the frame writer on the connection, or refuses without change |
| `Rlpx.FrameRW.ReadMsg` | p2p/rlpx.go:618-665 | refines the frame reader, with its four errors and, after each of them, the keystream position, the MAC state and the bytes left unread |

## Left out

- The EVM's opcodes, precompiled contracts and the SputnikVM: a run is any tree of charges, refunds, self-destructs, calls and creations.
- State tries, database failures, caches, logs, bloom filters, metrics and events: environment or easy members.
- The state at Morden's starting nonce: accounts start at nonce 0 here.
- Eviction from the set of blocks set aside and their later import, a missing parent state, bad-block lists, fast sync, receipt-chain import, recovery and the address-transaction index.
- Proof of work and signatures: a predicate on headers, and a flag on transactions. A wrong chain id makes the signature invalid.
- Miner uncle selection: its rule differs from the validator's.
- Signer changes, local transaction expiry, the gas price event and a failing state reader in the pool.
- Wrap-around of a 64-bit transaction nonce and of 64-bit message code offsets.
- The feed's element type check, and channel buffers: readiness is arbitrary.
- Endpoint resolution and the network dial itself; what tasks do between being handed out and finished.
- The key agreement of the handshake: both sides are given the same shared secret and packets.
- TxPool.TxPool.RemoveTx: may open a nonce gap, so it keeps only soundness of the two sets, not the gap-free range.
- The library sort: insertion sort stands for it, and the pool's input order is arbitrary, so every order of equal nonces is possible.

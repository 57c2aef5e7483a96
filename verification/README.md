# Verified models of the chain toolkit

This project models five parts of the toolkit in Dafny and proves what they are for: the log filter that must not lose
logs, the cross-chain bridge that must stay solvent, the V1 peg token and the bytecode patch it runs under, the Merkle
allowlist tree, and the base fee and mint arithmetic.

Programs that change things step by step are methods and classes with loops, in the form of the source. Each is proved
against a specification: a function of its inputs or of its old state. The lemmas are about those functions, so they
hold of the programs.

`dafny verify dfyconfig.toml` checks everything.

## How the files fit together

**Log filter** (`LogResults`, `PendingPools`, `SyncRound`, `LogTask`, `SyncSafety`, `SyncHistories`, `SyncQueries`,
`SyncExamples`).
`SyncRound` is one round of `RunOnce` as a function of a fixed chain and of an oracle that decides, at every call, what
goes wrong: a cancellation at any of three points, a range error, another RPC error, a failing pool (which may or may not
have applied the operation), a refusing handler, or a failing save (which may or may not have stored the checkpoint).
`LogTask.RunOnce` is the loop itself, over a mutable task, two semaphores, a checkpoint store and either pool; it is
proved equal to `SyncRound.RunOnce`. The state it is compared on sees a pool only through the heights that hold logs, so
both pools give the same handouts and checkpoints for the same outcomes. `SyncSafety` says, per iteration and per
block, exactly what is held; `SyncHistories` says so of whole histories of rounds and restarts. Both count either every handout, or deliveries
alone.

**Bridge** (`Sums`, `BridgeLedgers`, `BridgeProtocol`, `BridgeSolvency`, `MintLeg`, `BridgeLimits`, `BridgePayments`,
`Relayer`, `RelayerDelivery`). The two ledgers are classes. The protocol is a transition system in which users, the owner and the relayer's phases (mark, call,
unmark) interleave freely, any event is delivered any number of times, and a call is carried out, lost, or carried out
and yet reports an error. The relayer program is proved to produce runs of that system, and `RelayerDelivery` says in
balances, events and marks what each arriving event does, up to: every burn and deposit that arrives is served.

**V1 token and patch** (`PegTokenV1`, `PegTokenRules`, `Bytecode`, `BytecodeHex`). The token is one class, run with REVERT or with STOP.
The patch is related to the original code by disassembly and by execution on an arbitrary machine.

**Merkle tree and allowlist NFT** (`Bytes`, `PairTree`, `Merkle`, `Allowlist`, `MintLedger`, `MintRules`). `PairTree` is about any
two-child combination on any type. Keccak-256 is a parameter everywhere, so nothing assumes that it is injective:
soundness says "a member, or here are two inputs with one hash". The NFT's receivers make arbitrary calls, mints
included, in the middle of a mint.

**Base fee** (`BaseFee`).

## Where the code and what is said about it disagree

The models follow the code.

- The comment in `go/scdo/bytecode.go` says that PUSH data is left alone and that only standalone 0xfd bytes are
  counted. The code replaces and counts every 0xfd byte (`PushDataIsPatched`). `PatchedInstruction`,
  `RunsAsIntendedExactly` and `CountIsRevertInstructions` say exactly when the two agree.
- A log's identity is its block and transaction, so a second event of one transaction is dropped
  (`SecondEventIsDropped`; exactly, `DedupKeepsEveryLogExactly`).
- A test comment in `go/logfilter/logfilter_test.go` says that the checkpoint must not advance while logs are pending. It
  can pass a batch that is still pending, exactly as `CheckpointPassesPendingExactly` says. When the handler later refuses
  such a batch, or a failing pop drops it, it is gone unless the pop spares it or a later round fetches its blocks again.
  `NoLogGoesMissing` and `CaughtUpRunHandsOut` say exactly when. A daemon without START_BLOCK resumes at the checkpoint and
  does not fetch them again (`RefusedLogBelowCheckpoint` is a run that loses a log); one with START_BLOCK does, and
  delivers everything (`StartBlockDaemonDelivers`).
- The root `README.md` says that the daemon resumes from its checkpoint. With nothing saved it starts at the chain head
  (`RestartAtHeadSkipsBlocks`). A save that failed and yet took effect is ahead of the running checkpoint. Whether a restart
  is safe depends on which blocks were fetched and which of their heights were overwritten since, exactly as
  `RestartIsSafeExactly` says. The daemon exits on every error, so once something is saved its restarts are safe
  (`DaemonLosesNothing`); a task that runs on can lose a log (`RestartAheadOfCheckpoint`).
- The relayer's comment says that a failed event is retried on the next poll. It is retried only if it is delivered
  again. Its maps are the only guard of withdrawals. `SolventExactly` says when the bridge stays solvent without that
  guard, and `RestartBreaksSolvency` and `MisreportBreaksSolvency` are runs in which it does not.
- The calculator's comment refers to the EIP-1559 reference formula, which has a minimum step above target that the
  calculator leaves out (`MinimumStepIsMissing`), and which has no one-wei clamp, so that a fee of 0 differs as well
  (exactly, `DiffersFromEip1559Only`).

## Model

| member | source | states |
|---|---|---|
| LogResults.DedupBatch | go/logfilter/logfilter.go:453-462 | the batch kept is the first log of each key, in order |
| LogResults.DedupKeepsKeys | go/logfilter/logfilter.go:50-54 | deduplication invents nothing, loses no key and leaves no key twice |
| LogResults.DedupKeepsTransactions | go/logfilter/logfilter.go:50-54 | in the fields of the logs: every block and transaction of the batch keeps a log, and none keeps two |
| LogResults.FirstIsKept | go/logfilter/logfilter.go:453-462 | the log kept is the first of its block and transaction |
| LogResults.DedupKeepsEveryLogExactly | go/logfilter/logfilter.go:453-462 | a batch keeps all its logs if and only if no two different logs share block and transaction |
| LogResults.SecondEventIsDropped | go/logfilter/logfilter.go:453-462 | a concrete batch: of two events of one transaction the second is dropped |
| PendingPools.BlockPendingPool.constructor | go/logfilter/logfilter.go:248-251 | a new pool holds nothing |
| PendingPools.BlockPendingPool.Add | go/logfilter/logfilter.go:253-259 | the height is overwritten with the given logs, other heights stay |
| PendingPools.BlockPendingPool.PopConfirmed | go/logfilter/logfilter.go:261-274 | hands out exactly the logs at the confirmed heights, as a multiset, and removes exactly those heights |
| PendingPools.RedisPendingPool.constructor | go/logfilter/logfilter.go:293-297 | an empty pool, whose index and block keys agree |
| PendingPools.RedisPendingPool.Add | go/logfilter/logfilter.go:302-314 | block and index change together, or not at all when the transaction did not run; index and block keys keep agreeing |
| PendingPools.RedisPendingPool.PopConfirmed | go/logfilter/logfilter.go:316-355 | hands out exactly the logs at the confirmed heights; deletes them in one transaction, and deletes nothing when there is nothing to hand out; index and block keys keep agreeing |
| PendingPools.GatherMembers | go/logfilter/logfilter.go:267-273 | a log is handed out if and only if some confirmed height holds it |
| PendingPools.NothingPopped | go/logfilter/logfilter.go:350-354 | an empty pop means that no height with logs was confirmed |
| PendingPools.PopShows | go/logfilter/logfilter.go:350-354 | heights without logs, kept or deleted, make no difference to what is handed out or to what remains visible |
| PendingPools.OperationSimulates | go/logfilter/logfilter.go:302-355 | one operation on both pools has the same output and keeps them alike up to heights without logs |
| PendingPools.RedisSimulatesMemory | go/logfilter/logfilter.go:302-355 | over every operation sequence both pools hand out the same multisets and agree on all heights that hold logs |
| PendingPools.CountsDiffer | go/logfilter/logfilter.go:357-361 | the counts need not agree: Redis still counts a confirmed empty height, by example |
| LogTaskProgram.RPCSemaphore.Acquire | go/logfilter/logfilter.go:201-210 | takes a slot, or fails without one when cancelled |
| LogTaskProgram.RPCSemaphore.Release | go/logfilter/logfilter.go:212-216 | gives one slot back |
| LogTaskProgram.Node.EthGetLogs | go/logfilter/logfilter.go:220-224 | answers with exactly the logs of the range, or with an error; every call is recorded |
| LogTaskProgram.CheckpointStore.Save | go/logfilter/logfilter.go:683-689 | stores the block, except when it failed without taking effect |
| LogTaskProgram.Pool.Add | go/logfilter/logfilter.go:235-239 | either pool shows the height overwritten, or removed by an empty batch |
| LogTaskProgram.Pool.PopConfirmed | go/logfilter/logfilter.go:235-239 | either pool hands out what its visible state says is confirmed and keeps the rest |
| LogTaskProgram.LogTask.Fetch | go/logfilter/logfilter.go:415-436 | makes one call for the given range unless cancelled, and on every path gives back the slots it took |
| LogTaskProgram.LogTask.EmitReady | go/logfilter/logfilter.go:468-480 | pop, hand out, save and checkpoint in that order, each failure leaving exactly the state of the specification |
| LogTaskProgram.LogTask.HandleBatchOf | go/logfilter/logfilter.go:452-487 | deduplicate, add under the batch start, then emit |
| LogTaskProgram.LogTask.Iterate | go/logfilter/logfilter.go:413-487 | one pass of the loop is one step of the specification, with its call and its slots |
| LogTaskProgram.LogTask.RunOnce | go/logfilter/logfilter.go:399-489 | the loop terminates with the status, the calls and the state of `SyncRound.RunOnce`, and holds no slot afterwards |
| SyncRound.StepReports | go/logfilter/logfilter.go:413-487 | which iterations end the round, and with which error, a refusal or failing save only when something was handed out |
| SyncSafety.RangeMembers | go/logfilter/logfilter.go:220-224 | a range holds exactly the logs of its blocks |
| SyncSafety.AddSplits | go/logfilter/logfilter.go:464-466 | after a batch is added, a log is held if and only if the batch has it, another height has it, or it was handed out |
| SyncSafety.AddHoldsExactly | go/logfilter/logfilter.go:464-466 | after a batch is added a block is held if and only if it is in the batch, or it was held and each of its logs at the overwritten height was handed out or is pending at another height |
| SyncSafety.HeightSparesOthers | go/logfilter/logfilter.go:427-430 | an overwritten height holds nothing of blocks before it or a full batch after it |
| SyncSafety.PopSplits | go/logfilter/logfilter.go:468-471 | what was in the pool is afterwards in the pool or among what was popped, and the converse |
| SyncSafety.DeliveryHolds | go/logfilter/logfilter.go:468-475 | a pop that counts as handed out keeps exactly what was held |
| SyncSafety.FailedPopHoldsExactly | go/logfilter/logfilter.go:468-475 | after a pop that is refused or dropped a block is pending or delivered if and only if it was, and each of its logs at a confirmed height was delivered before or is also at an unconfirmed height |
| SyncSafety.PopBounds | go/logfilter/logfilter.go:263-274 | a popped log is within a full batch of the confirmation depth, and nothing confirmed remains |
| SyncSafety.StepHoldsExactly | go/logfilter/logfilter.go:413-487 | every iteration, whatever fails in it, and every block: held afterwards if and only if a condition on the state before says so (in the added batch, or held and spared by the overwritten height; and spared by an undelivered pop) |
| SyncSafety.GoingOnHolds | go/logfilter/logfilter.go:413-487 | an iteration that goes on holds the blocks it has passed, and of earlier blocks exactly what it held |
| SyncSafety.StepKeepsEarlier | go/logfilter/logfilter.go:413-487 | while every handout counts no iteration drops a block before its own, and one that stores a checkpoint holds its own |
| SyncSafety.RoundHoldsExactly | go/logfilter/logfilter.go:413-487 | a round holds a block if and only if its iterations do, one after the other |
| SyncSafety.CaughtUpHoldsExactly | go/logfilter/logfilter.go:413-488 | a round without an error holds, of the blocks up to its head, all from its start on and of the others exactly those held before |
| SyncSafety.CaughtUpIsDrained | go/logfilter/logfilter.go:413-488 | it leaves nothing confirmed in the pool |
| SyncSafety.DrainedMeansHandedOut | go/logfilter/logfilter.go:468-480 | a confirmed block is then held if and only if all its logs were handed out |
| SyncSafety.RoundsAreSafe | go/logfilter/logfilter.go:413-487 | every round keeps what is below the running checkpoint; one that begins with nothing saved ahead of the checkpoint also keeps what is below the saved one, failed saves that took effect included |
| SyncSafety.BatchesOfOneKeepSaved | go/logfilter/logfilter.go:427-430 | with batches of one block every round keeps what is below the saved checkpoint |
| SyncHistories.HistoryHoldsExactly | go/logfilter/logfilter.go:413-487 | over every history of rounds and restarts of any kind, for every block and both ways of counting: all logs of the block are held if and only if the recursion over the iterations' conditions says so |
| SyncHistories.NoLogIsLost | go/logfilter/logfilter.go:413-487 | after any history each log from the first block up to the checkpoint is pending or was taken from the pool if and only if the history holds those blocks; and no log was taken earlier than one batch short of its confirmation depth |
| SyncHistories.NoLogGoesMissing | go/logfilter/logfilter.go:468-480 | the same for pending or delivered, refusals and dropped pops included |
| SyncHistories.CaughtUpRunHandsOut | go/logfilter/logfilter.go:430-480 | after any history, a round that reaches its head leaves every log of a confirmed block handed out, or delivered when only deliveries count, if and only if it fetched the block again or the history held it |
| SyncHistories.CaughtUpRunDelivers | go/logfilter/logfilter.go:430-480 | with nothing ever refused or dropped, delivered under the same condition |
| SyncHistories.NothingIsInvented | go/logfilter/logfilter.go:432-475 | after any history, what is pending and what was handed out are logs of the chain, unchanged |
| SyncHistories.RestartIsSafeExactly | go/logfilter/main.go:122-134 | a restart after any history, from START_BLOCK, from what is saved or at the chain head, leaves every block up to its new checkpoint held if and only if the history held them |
| SyncHistories.SyncKeepsHeld | go/logfilter/logfilter.go:401-489 | one round of a history keeps the blocks below both checkpoints, rounds cut short included |
| SyncHistories.OnlyRestartsLose | go/logfilter/logfilter.go:401-489 | a history whose restarts resume with every block up to there held loses nothing below its checkpoint, whatever fails in its rounds |
| SyncHistories.DaemonIsSafe | go/logfilter/main.go:122-134 | when every failing round is followed by a restart and there is START_BLOCK or something saved, both checkpoints have every block below them held, and nothing is saved ahead unless the last round failed |
| SyncHistories.DaemonLosesNothing | go/logfilter/main.go:191-194 | so such a daemon loses nothing below its checkpoint, a restart after a save that took effect although it failed included |
| SyncHistories.BatchesOfOneLoseNothing | go/logfilter/main.go:122-126 | with batches of one block nothing is lost either, however long the process runs on after errors |
| SyncHistories.StartBlockDaemonDelivers | go/logfilter/main.go:122-134 | with START_BLOCK set and a restart after every failing round, every round that catches up leaves all logs from the first block to head minus depth delivered, whatever was refused, dropped or misreported before |
| SyncHistories.RestartAtHeadSkipsBlocks | go/logfilter/main.go:126-133 | a concrete restart with nothing saved that skips a log |
| SyncHistories.CheckpointPassesPendingExactly | go/logfilter/logfilter.go:464-480 | an iteration that stores its checkpoint leaves a pending log below it if and only if its own batch is unconfirmed and holds one, or another unconfirmed height does |
| SyncExamples.RefusedLogBelowCheckpoint | go/logfilter/logfilter.go:472-480 | a concrete history of four rounds after which a refused log below the checkpoint is neither pending nor delivered |
| SyncExamples.RestartAheadOfCheckpoint | go/logfilter/logfilter.go:476-478 | a concrete history in which a save that took effect although it failed, a shrunk round that overwrites a height and a restart leave a log below the checkpoint out of sight |
| SyncQueries.QueriesTile | go/logfilter/logfilter.go:426-446 | the successful queries cover a stretch of blocks from the round's start, each block exactly once and no other, and all up to the head if the round catches up |
| SyncQueries.CheckpointFollowsDelivery | go/logfilter/logfilter.go:472-480 | a round that catches up leaves both checkpoints alone if nothing was handed out, and otherwise both are the last block of one of its successful queries |
| SyncQueries.BatchLength | go/logfilter/logfilter.go:427-430 | a batch covers the smaller of the batch size and the blocks left |
| SyncQueries.QueriesAreFull | go/logfilter/logfilter.go:426-447 | every query of a round covers the smaller of the blocks left and a batch size between the round's last and its first |
| SyncQueries.CallsAreBounded | go/logfilter/logfilter.go:413-447 | at most one call per block left, one per halving of the batch size, and one more |
| SyncQueries.RoundQueries | go/logfilter/logfilter.go:408-447 | both bounds for a whole round from its checkpoint |
| SyncQueries.ShrinkConverges | go/logfilter/logfilter.go:438-447 | against a node that refuses exactly the ranges longer than R a round never gives up, and any shrink leaves at least half of R, rounded up |
| BridgeLedgers.TransferKeepsSum | solidity/contracts/bridge/BridgeLock.sol:55 | a token transfer, a transfer to oneself included, keeps the total |
| BridgeLedgers.FeeIsSmall | solidity/contracts/bridge/BridgeLock.sol:57-58 | the fee is at most one percent, rounded down, and always less than a positive amount |
| BridgeLedgers.FeeBounds | solidity/contracts/bridge/BridgeLock.sol:57 | the fee is the rate in basis points, rounded down |
| BridgeLedgers.TransferMoves | solidity/contracts/bridge/BridgeLock.sol:55 | a transfer succeeds exactly when the sender holds the amount, and then moves it between these two accounts alone |
| BridgeLedgers.DepositEffects | solidity/contracts/bridge/BridgeLock.sol:53-62 | exactly when a deposit succeeds; the user pays exactly the amount to the lock, and the event names the user, the next nonce and the amount less the fee |
| BridgeLedgers.WithdrawEffects | solidity/contracts/bridge/BridgeLock.sol:77-78 | exactly when a withdrawal succeeds; its recipient gets the amount, the lock has it less, nobody else anything, and the event says so |
| BridgeLedgers.TokenTransferEffects | solidity/contracts/bridge/BridgeLock.sol:55 | anyone but the lock may move what it holds to anyone |
| BridgeLedgers.SetFeeEffects | solidity/contracts/bridge/BridgeLock.sol:86-90 | the rate after a successful set is the one given, up to one percent, and nothing else changes |
| BridgeLedgers.MintEffects | solidity/contracts/bridge/BridgeMint.sol:34-39 | exactly when a mint succeeds; it credits the recipient alone, and uses the nonce |
| BridgeLedgers.BurnEffects | solidity/contracts/bridge/BridgeMint.sol:42-45 | exactly when a burn succeeds; it debits the sender alone, and the event names sender, amount and nonce |
| BridgeLedgers.PegTransferEffects | solidity/contracts/bridge/BridgeMint.sol:10 | exactly when a peg transfer succeeds, and whom it debits and credits |
| BridgeLedgers.BridgeLock.constructor | solidity/contracts/bridge/BridgeLock.sol:37-50 | ten basis points, nonce zero, no events; tokens already held are a donation |
| BridgeLedgers.BridgeLock.MoveTokens | solidity/contracts/bridge/BridgeLock.sol:55-77 | moves the amount or leaves the ledger alone |
| BridgeLedgers.BridgeLock.TransferToken | solidity/contracts/bridge/BridgeLock.sol:55 | a transfer of the token by someone else; what reaches the lock this way is a donation |
| BridgeLedgers.BridgeLock.Deposit | solidity/contracts/bridge/BridgeLock.sol:53-62 | pulls the whole amount, emits the net amount under the next nonce and keeps the fee, or reverts without a trace |
| BridgeLedgers.BridgeLock.Withdraw | solidity/contracts/bridge/BridgeLock.sol:65-79 | pays out only under the admin's signature and only what the lock holds; nothing remembers the nonce |
| BridgeLedgers.BridgeLock.SetFeeBps | solidity/contracts/bridge/BridgeLock.sol:86-90 | the owner alone sets the rate, up to the maximum |
| BridgeLedgers.BridgeLock.SetAdmin | solidity/contracts/bridge/BridgeLock.sol:81-84 | the owner alone sets the admin, and nothing else changes |
| BridgeLedgers.BridgeLock.TransferOwnership | solidity/contracts/bridge/BridgeLock.sol:47 | inherited: the owner alone, and not to the zero address |
| BridgeLedgers.BridgeLock.RenounceOwnership | solidity/contracts/bridge/BridgeLock.sol:47 | inherited: the owner alone, leaving no owner |
| BridgeLedgers.BridgeMint.TransferOwnership | solidity/contracts/bridge/BridgeMint.sol:10 | inherited: the owner alone, and not to the zero address |
| BridgeLedgers.BridgeMint.RenounceOwnership | solidity/contracts/bridge/BridgeMint.sol:10 | inherited: the owner alone, leaving no owner |
| BridgeLedgers.BridgeMint.constructor | solidity/contracts/bridge/BridgeMint.sol:18-26 | no supply, no used nonces |
| BridgeLedgers.BridgeMint.Mint | solidity/contracts/bridge/BridgeMint.sol:34-39 | the minter alone mints, once per source nonce |
| BridgeLedgers.BridgeMint.Burn | solidity/contracts/bridge/BridgeMint.sol:42-45 | burns what the sender holds under any nonce the sender chooses |
| BridgeLedgers.BridgeMint.Transfer | solidity/contracts/bridge/BridgeMint.sol:10 | the inherited transfer |
| BridgeLedgers.BridgeMint.SetMinter | solidity/contracts/bridge/BridgeMint.sol:47-50 | the owner alone sets the minter |
| BridgeProtocol.RunSplits | go/bridge/relayer.go:114-142 | a run may be cut anywhere |
| BridgeSolvency.MintKeepsLogExact | solidity/contracts/bridge/BridgeMint.sol:34-39 | a mint answers its deposit exactly and only once |
| BridgeSolvency.StepKeepsMintingExact | solidity/contracts/bridge/BridgeMint.sol:34-39 | every step keeps: each Minted event answers the deposit of its nonce with the same user and net amount, once per nonce |
| BridgeSolvency.MintingIsAlwaysExact | solidity/contracts/bridge/BridgeMint.sol:34-39 | that holds in every reachable state, restarts and misreported calls included |
| BridgeSolvency.DepositKeepsBooks | solidity/contracts/bridge/BridgeLock.sol:53-62 | a deposit at any fee rate splits into fee and amount still to mint |
| BridgeSolvency.BurnKeepsBooks | solidity/contracts/bridge/BridgeMint.sol:42-45 | a burn moves value from the supply to the burns |
| BridgeSolvency.WithdrawKeepsBooks | solidity/contracts/bridge/BridgeLock.sol:65-79 | a withdrawal moves value from the lock to the withdrawals, one to the lock itself included |
| BridgeSolvency.StepKeepsBooks | solidity/contracts/bridge/BridgeLock.sol:53-79 | every step keeps: lock balance plus withdrawn equals fees, donations, unminted deposits, supply and burns, and balances add up to the supply |
| BridgeSolvency.TakeUpOnce | go/bridge/relayer.go:169-176 | marking takes up a burn whose nonce is not marked, once |
| BridgeSolvency.PayKeepsTotals | go/bridge/relayer.go:181-189 | a withdrawal under way is of a burn not yet paid, and paying it settles exactly that burn |
| BridgeSolvency.StepKeepsPaying | go/bridge/relayer.go:169-190 | within one relayer lifetime every step keeps each burn taken up at most once, no two with one nonce |
| BridgeSolvency.RunKeepsSound | go/bridge/relayer.go:145-190 | all of these together over every interleaving |
| BridgeSolvency.SoundMeansSolvent | go/bridge/relayer.go:169-190 | they imply solvency, at most one payment per burn, and funds for every withdrawal under way |
| BridgeSolvency.BridgeIsSolvent | go/bridge/relayer.go:145-190 | over every interleaving within one lifetime the lock holds exactly fees, donations, deposits to mint, supply and burns to pay, each burn is paid at most once, and a relayed withdrawal never lacks funds |
| MintLeg.StepKeepsClaims | go/bridge/relayer.go:145-167 | while peg holders rest, a step moves value from what an account is owed to its balance, and only a deposit adds any |
| MintLeg.RunKeepsClaims | go/bridge/relayer.go:145-167 | so does any run of such steps, deposits made meanwhile included |
| MintLeg.MintLegIsConfluent | go/bridge/relayer.go:145-167 | two runs with the same deposits that have minted the same nonces leave equal balances, whatever the order, repetitions, restarts and misreported calls |
| MintLeg.CreditedInOrderAdds | go/bridge/relayer.go:145-167 | crediting each deposit once in nonce order adds up to each account's deposits |
| MintLeg.AllMintedIsCreditedInOrder | go/bridge/relayer.go:145-167 | once every nonce is minted, balances are those of crediting each deposit once in nonce order |
| MintLeg.AllCanBeHandledInOrder | go/bridge/relayer.go:145-167 | then the handlers run once per deposit in nonce order mint every nonce too |
| MintLeg.AllMintedIsHandledInOrder | go/bridge/relayer.go:145-167 | and the balances are those of that run |
| BridgeLimits.CollidingBurnIsNeverPaid | go/bridge/relayer.go:169-176 | once a burn is paid, another burn with the nonce its sender chose is never paid in that lifetime |
| BridgeLimits.PaidOutSplits | solidity/contracts/bridge/BridgeLock.sol:65-79 | what was paid out plus unpaid burns is all burns plus what was paid beyond the first time |
| BridgeLimits.RunKeepsRecords | go/bridge/relayer.go:98-190 | over every run the withdrawals add up to each burn's amount as often as it was paid, next to exact minting and balanced books |
| BridgeLimits.StepPaysTwice | go/bridge/relayer.go:181-189 | a burn comes to be paid twice exactly by a withdrawal, carried out, of a burn already paid |
| BridgeLimits.SolventExactly | go/bridge/relayer.go:98-190 | over every run, restarts and misreported calls included, the bridge is solvent if and only if no positive burn was paid twice, and if and only if no step carried out the withdrawal of a paid burn |
| BridgeLimits.SolventMeansFunded | solidity/contracts/bridge/BridgeLock.sol:77 | a solvent lock can pay any burn not yet paid |
| BridgeLimits.RedeliveryPays | go/bridge/relayer.go:83-96 | in any state a restarted relayer that is handed a burn pays it if and only if the lock holds the amount |
| BridgeLimits.RestartPaysAgainExactly | go/bridge/relayer.go:169-190 | after any run, earlier restarts included, a restart and a redelivery make a solvent bridge insolvent if and only if the burn had been paid, is positive, and the lock holds its amount |
| BridgeLimits.MisreportUnmarks | go/bridge/relayer.go:181-188 | a withdrawal that took effect and reports an error leaves a paid burn that may be taken up again |
| BridgeLimits.MisreportPaysAgainExactly | go/bridge/relayer.go:169-190 | in any state a handler that is handed it again pays it again if and only if the lock still holds the amount |
| BridgeLimits.RestartBreaksSolvency | go/bridge/relayer.go:169-190 | a concrete run: two deposits, one burn paid twice across a restart |
| BridgeLimits.MisreportBreaksSolvency | go/bridge/relayer.go:181-188 | a concrete run: two deposits, one burn paid twice after a misreported withdrawal |
| BridgePayments.PaymentsReachTheirBurners | go/bridge/relayer.go:169-190 | over every run, restarts and misreported calls included, the tokens of an account that neither deposits nor trades, and what events say it received, grow by exactly the amounts of its burns, each as often as it was paid |
| RelayerDelivery.BurnArrivalPays | go/bridge/relayer.go:131-140 | an arriving unmarked burn that the lock can pay is paid to its sender, with its event, and its nonce marked |
| RelayerDelivery.BurnArrivalChangesNothing | go/bridge/relayer.go:169-188 | one that is marked, lost or cannot be paid leaves the world as it was |
| RelayerDelivery.BurnArrivalMisreported | go/bridge/relayer.go:181-188 | one whose withdrawal takes effect and reports an error is paid and stays unmarked |
| RelayerDelivery.DepositArrivalMints | go/bridge/relayer.go:120-129 | an arriving unmarked deposit whose nonce is new credits its user alone with the net amount, and uses and marks the nonce |
| RelayerDelivery.DepositArrivalChangesNothing | go/bridge/relayer.go:145-166 | one that is marked, lost, used or would overflow the supply leaves the world as it was, so that a lost mint can be delivered again |
| RelayerDelivery.DepositArrivalMisreported | go/bridge/relayer.go:157-164 | one whose mint takes effect and reports an error uses its nonce and stays unmarked |
| RelayerDelivery.RestartedRelayerMints | go/bridge/relayer.go:83-96 | a restarted relayer mints an unminted deposit that it is handed, marked before or not |
| RelayerDelivery.LoopStops | go/bridge/relayer.go:114-142 | the loop handles every input up to the first cancellation or failing re-watch, and none after it, and exits accordingly |
| RelayerDelivery.LoopKeeps | go/bridge/relayer.go:114-142 | between handlers every marked deposit is minted, and every marked burn shares its nonce with a paid one |
| RelayerDelivery.LoopPaysBurn | go/bridge/relayer.go:131-140 | an unmarked, funded burn among the inputs, its call carried out, is paid once more by the end, with its event |
| RelayerDelivery.LoopPaysEveryBurn | go/bridge/relayer.go:131-140 | from deployment on, within one lifetime, every arriving burn whose call is carried out is paid exactly once, unless one with the same nonce has been paid instead; funds never lack |
| RelayerDelivery.LoopMintsEveryDeposit | go/bridge/relayer.go:120-129 | every arriving deposit whose call is carried out is minted, to its user and with its net amount, by exactly one event, while the supply fits a word |
| RelayerProgram.Relayer.constructor | go/bridge/relayer.go:83-96 | empty maps, nothing paid |
| BridgeProtocol.HandleDepositUnfolds | go/bridge/relayer.go:145-167 | the deposit handler's three steps |
| BridgeProtocol.HandleBurnUnfolds | go/bridge/relayer.go:169-190 | the burn handler's three steps |
| RelayerProgram.Relayer.CallMint | go/bridge/relayer.go:157 | carried out, lost, or carried out with an error |
| RelayerProgram.Relayer.HandleDeposit | go/bridge/relayer.go:145-167 | the handler is the run mark, call, unmark of the transition system |
| RelayerProgram.Relayer.CallWithdraw | go/bridge/relayer.go:181 | carried out, lost, or carried out with an error; a withdrawal that took effect is recorded as paid |
| RelayerProgram.Relayer.HandleBurn | go/bridge/relayer.go:169-190 | the handler is the run mark, call, unmark of the transition system |
| RelayerProgram.Relayer.Receive | go/bridge/relayer.go:115-141 | one turn of the loop is the run of its input |
| RelayerProgram.Relayer.Loop | go/bridge/relayer.go:114-142 | the event loop is a run of the transition system up to its exit, for every sequence of inputs, re-watches included |
| RelayerProgram.LoopIsSolvent | go/bridge/relayer.go:98-143 | so the bridge is solvent whenever the loop stops, if no withdrawal took effect while reporting an error |
| PegTokenV1.BridgeMint.constructor | solidity/contracts/bridge/BridgeMintV1.sol:23-28 | no balances, no supply |
| PegTokenV1.BridgeMint.Move | solidity/contracts/bridge/BridgeMintV1.sol:69-73 | debits, then credits with wrap-around, or changes nothing |
| PegTokenV1.BridgeMint.Transfer | solidity/contracts/bridge/BridgeMintV1.sol:30-33 | the call under either semantics |
| PegTokenV1.BridgeMint.Approve | solidity/contracts/bridge/BridgeMintV1.sol:35-38 | sets the allowance |
| PegTokenV1.BridgeMint.TransferFrom | solidity/contracts/bridge/BridgeMintV1.sol:40-45 | the call under either semantics: a late failure undoes the spent allowance under REVERT and keeps it under STOP |
| PegTokenV1.BridgeMint.Mint | solidity/contracts/bridge/BridgeMintV1.sol:47-54 | once per nonce, by the minter, with wrap-around |
| PegTokenV1.BridgeMint.Burn | solidity/contracts/bridge/BridgeMintV1.sol:56-61 | the call under either semantics, the supply wrapping |
| PegTokenV1.BridgeMint.SetMinter | solidity/contracts/bridge/BridgeMintV1.sol:63-67 | the minter alone passes the role on |
| PegTokenRules.MovedRule | solidity/contracts/bridge/BridgeMintV1.sol:69-73 | exactly when a transfer succeeds, and whose balances change how, a self-transfer and wrap-around included |
| PegTokenRules.ApproveRule | solidity/contracts/bridge/BridgeMintV1.sol:35-38 | the caller is the owner of the allowance that is set, and no other changes |
| PegTokenRules.TransferFromRule | solidity/contracts/bridge/BridgeMintV1.sol:40-45 | exactly when it succeeds; it uses up what the owner allowed the caller, and moves the owner's balance |
| PegTokenRules.MintRule | solidity/contracts/bridge/BridgeMintV1.sol:47-54 | exactly the minter mints, with a new nonce, crediting the recipient alone; any other mint leaves storage as it was |
| PegTokenRules.BurnRule | solidity/contracts/bridge/BridgeMintV1.sol:56-61 | exactly when a burn succeeds; it debits the caller alone |
| PegTokenRules.SetMinterRule | solidity/contracts/bridge/BridgeMintV1.sol:63-67 | exactly the minter passes the role on |
| PegTokenRules.WrapsModulo | solidity/contracts/bridge/BridgeMintV1.sol:51-59 | additions and subtractions wrap modulo 2^256 |
| PegTokenRules.NoncesStayUsed | solidity/contracts/bridge/BridgeMintV1.sol:49-50 | over every run and both semantics a used nonce stays used |
| PegTokenRules.NonceMintsOnce | solidity/contracts/bridge/BridgeMintV1.sol:47-54 | over every run and both semantics at most one call credits a nonce; every later mint of it leaves storage as it was |
| PegTokenRules.OnlyTheMinterMints | solidity/contracts/bridge/BridgeMintV1.sol:47-67 | over every run without a call by the minter nothing is minted and the role stays |
| PegTokenV1.StopStep | solidity/contracts/bridge/BridgeMintV1.sol:30-73 | a call that succeeds when stopping succeeds when reverting, with the relation kept; one that fails leaves the relation as it is |
| PegTokenV1.AllowancesStayBelow | solidity/contracts/bridge/BridgeMintV1.sol:40-45 | allowances of the stopping contract never exceed those of the reverting one |
| PegTokenV1.StopSimulatesRevert | solidity/contracts/bridge/BridgeMintV1.sol:30-73 | every stopping run matches the reverting run of its succeeding calls, none of which fails there, in balances, supply, nonces and minter, with allowances no larger |
| PegTokenV1.StopDiffersExactly | solidity/contracts/bridge/BridgeMintV1.sol:40-45 | one call leaves different storage under the two semantics if and only if it is a `transferFrom` with the allowance but without the balance |
| PegTokenV1.MoveTotal | solidity/contracts/bridge/BridgeMintV1.sol:69-73 | a transfer, a self-transfer included, keeps the total modulo 2^256, and exactly while the total is below |
| PegTokenV1.MintTotal | solidity/contracts/bridge/BridgeMintV1.sol:47-54 | a mint keeps total and supply congruent |
| PegTokenV1.BurnTotal | solidity/contracts/bridge/BridgeMintV1.sol:56-61 | so does a burn |
| PegTokenV1.RunKeepsTotal | solidity/contracts/bridge/BridgeMintV1.sol:30-73 | so does every run under both semantics |
| PegTokenV1.BalancesMatchSupply | solidity/contracts/bridge/BridgeMintV1.sol:30-73 | over all runs balances add up to the supply modulo 2^256, and as numbers while the initial supply and everything minted stay below 2^256 |
| Bytecode.PatchBytecodeForV1 | go/scdo/bytecode.go:32-44 | a fresh copy, the same array when empty, in which exactly the 0xfd bytes are zero; the input is unchanged |
| Bytecode.PatchIsFinal | go/scdo/bytecode.go:32-44 | patching is idempotent and leaves a count of zero |
| Bytecode.PushWidths | go/scdo/bytecode.go:21-26 | PUSH1 to PUSH32 carry 1 to 32 bytes and no other instruction carries any |
| Bytecode.EveryByteBelongsOnce | go/scdo/bytecode.go:21-26 | disassembly tiles the code: every byte belongs to exactly one instruction |
| Bytecode.JumpDestinationsExactly | go/scdo/bytecode.go:21-26 | the valid jump destinations are the 0x5b bytes that are not part of any instruction's data |
| Bytecode.PatchKeepsStructure | go/scdo/bytecode.go:32-44 | instruction boundaries and valid jump destinations are those of the original, for every byte string |
| Bytecode.PatchedInstruction | go/scdo/bytecode.go:21-26 | a patched instruction has the intended opcode and its data changed in exactly the 0xfd bytes; it is the intended instruction if and only if its data holds none |
| Bytecode.CountSplits | go/scdo/bytecode.go:65-67 | the count of a concatenation is the sum |
| Bytecode.CountIsZero | go/scdo/bytecode.go:63-67 | a count of zero means that no 0xfd byte is left |
| Bytecode.CountIsRevertInstructions | go/scdo/bytecode.go:63-67 | the count is the number of REVERT instructions if and only if no PUSH data holds a 0xfd byte, and never less |
| Bytecode.PushDataIsPatched | go/scdo/bytecode.go:21-26 | a concrete code, PUSH1 0xfd: the pushed byte changes, and a REVERT is counted where there is none |
| Bytecode.PatchedCodeRunsAsIntended | go/scdo/bytecode.go:13-18 | for any code, on any machine whose instructions do not read the code, and for any number of steps, the patched code is where the original is with REVERT behaving as STOP, as long as the instructions met on the way have no 0xfd byte in their data; constructors that copy their code out are not covered |
| Bytecode.CleanCodeMeetsCleanData | go/scdo/bytecode.go:21-26 | no run meets such a byte when no PUSH data of the whole code holds one |
| Bytecode.CleanCodeRunsAsIntended | go/scdo/bytecode.go:13-18 | such a code then runs as intended on every such machine |
| Bytecode.RunsAsIntendedExactly | go/scdo/bytecode.go:21-26 | on a machine that records the instructions it meets this holds if and only if no PUSH data holds a 0xfd byte |
| BytecodeHex.DecodesWhatItEncodes | go/scdo/bytecode.go:55-60 | decoding an encoded byte string gives it back |
| BytecodeHex.EncodesWhatItDecodes | go/scdo/bytecode.go:52-58 | decoding succeeds exactly on an even number of digits, and encoding gives them back in lower case |
| BytecodeHex.DigitsInOrder | go/scdo/bytecode.go:55-60 | the sixteen digits have their values, in either case |
| BytecodeHex.HighHalfFirst | go/scdo/bytecode.go:60 | a byte is written with its high half first |
| BytecodeHex.PrefixGoesAway | go/scdo/bytecode.go:49-51 | a prefix of either case is dropped |
| BytecodeHex.NoPrefixStays | go/scdo/bytecode.go:49-51 | a string without one is taken as it is |
| BytecodeHex.ReportsErrors | go/scdo/bytecode.go:52-58 | an odd length is reported first, and otherwise the first byte that is no digit |
| BytecodeHex.PatchesHex | go/scdo/bytecode.go:46-61 | the wrapper succeeds exactly on an even number of digits after an optional prefix, its result holds the patched bytes, and it is idempotent |
| BytecodeHex.KeepsCodeWithoutRevert | go/scdo/bytecode.go:46-61 | code without a 0xfd byte comes back prefixed and in lower case |
| Bytes.GreaterIsTotal | go/merkle/merkle.go:25-27 | the order by which children are sorted is total |
| Bytes.FirstDifferenceDecides | go/merkle/merkle.go:26 | the first byte that differs decides the order |
| Bytes.GreaterThanPrefix | go/merkle/merkle.go:26 | a string exceeds its own proper prefixes |
| Merkle.HashPairCommutes | go/merkle/merkle.go:23-31 | the pair hash does not depend on the order of the children |
| Merkle.SmallerChildFirst | go/merkle/merkle.go:25-28 | the hashed bytes are the two children, and the smaller comes first |
| Merkle.RootOfTwo | go/merkle/merkle.go:25-49 | the root of two leaves, in either order, hashes the one with the smaller first differing byte before the other |
| Merkle.PairInputDetermines | go/merkle/merkle.go:25-31 | the 64 hashed bytes determine the unordered pair |
| Merkle.HashLevel | go/merkle/merkle.go:40-46 | the inner loop computes the next level, an odd node paired with itself |
| Merkle.BuildMerkleTree | go/merkle/merkle.go:33-49 | the loop computes the root of the recursive tree |
| Merkle.PairUp | go/merkle/merkle.go:70-84 | one level of the proof loop: the next level, and exactly the sibling of the current node appended |
| Merkle.FindLeaf | go/merkle/merkle.go:53-62 | the first position of the leaf, or none |
| Merkle.ProofFrom | go/merkle/merkle.go:63-88 | the proof is the siblings on the way from the leaf to the root |
| Merkle.GetProof | go/merkle/merkle.go:51-88 | succeeds exactly on members, with an accepted proof as long as the tree is deep |
| Merkle.VerifyMerkleProof | go/merkle/merkle.go:90-97 | accepts exactly when climbing the proof from the leaf ends at the root |
| Merkle.AcceptedProofIsSound | go/merkle/merkle.go:90-97 | an accepted proof of length j up to the depth d starts at a node of level d - j, a longer one passes through a member, or two different 64-byte inputs with one hash are computed |
| PairTree.DepthIsCeilLog2 | go/merkle/merkle.go:38-47 | the number of levels above the leaves is the rounded-up binary logarithm |
| PairTree.NextLevelAt | go/merkle/merkle.go:40-46 | each node of the next level combines its pair, an odd last node with itself |
| PairTree.RootIsTopLevel | go/merkle/merkle.go:38-48 | the loop stops at the level that is the root alone |
| PairTree.NodeIsTopDown | go/merkle/merkle.go:38-47 | every node of every level is the recursive tree over the leaves below it |
| PairTree.RootIsTopDown | go/merkle/merkle.go:34-49 | building by levels equals splitting at powers of two with missing right parts duplicated, for every number of leaves |
| PairTree.RepeatedLastLeafKeepsRoot | go/merkle/merkle.go:34-49 | repeating the last leaf of an odd list of at least three keeps the root |
| PairTree.ClimbReachesAncestor | go/merkle/merkle.go:63-88 | after k siblings the climb from a leaf is at its ancestor on level k |
| PairTree.SiblingsLeadToRoot | go/merkle/merkle.go:51-88 | the siblings of any leaf lead from it to the root |
| PairTree.Descend | go/merkle/merkle.go:91-97 | walking an accepted climb back down stays on nodes of the tree, or two pairs clash |
| PairTree.PathFromRoot | go/merkle/merkle.go:91-97 | the same from the root, for paths of every length |
| Allowlist.LeafLayout | solidity/contracts/MerkleNFTAllowlist.sol:47 | the packed leaf is the 20-byte address and then 2 as a 32-byte big-endian word |
| Allowlist.AcceptedSenderIsListed | solidity/contracts/MerkleNFTAllowlist.sol:47-48 | a sender with an accepted proof of any length is listed, or two different inputs with one hash are computed |
| Allowlist.ListedSenderHasProof | solidity/contracts/MerkleNFTAllowlist.sol:47-48 | every listed sender has an accepted proof |
| MintLedger.GuardedCall | solidity/contracts/MerkleNFTAllowlist.sol:40-78 | a call made while a mint is under way cannot touch supply, counts, minted tokens or the money taken in |
| MintLedger.CallbackIsConfined | solidity/contracts/MerkleNFTAllowlist.sol:53-55 | so no callback can, whatever calls it makes |
| MintLedger.OneToken | solidity/contracts/MerkleNFTAllowlist.sol:53-55 | the next id is free, and minting it settles one token owed |
| MintLedger.OneIteration | solidity/contracts/MerkleNFTAllowlist.sol:53-55 | one turn of the loop, callback included, owes one token less |
| MintLedger.MintLoopSettles | solidity/contracts/MerkleNFTAllowlist.sol:53-55 | the loop succeeds if and only if the receiver refuses none of its tokens, and then the ledger is steady again with the counts of its head |
| MintLedger.WlMintStarts | solidity/contracts/MerkleNFTAllowlist.sol:41-51 | after the checks and writes of the allowlist mint all counters agree and the new tokens are owed |
| MintLedger.PublicMintStarts | solidity/contracts/MerkleNFTAllowlist.sol:60-67 | the same for the public mint |
| MintLedger.WlMintSettles | solidity/contracts/MerkleNFTAllowlist.sol:40-57 | the allowlist mint succeeds if and only if its checks pass and no token is refused |
| MintLedger.PublicMintSettles | solidity/contracts/MerkleNFTAllowlist.sol:59-73 | the same for the public mint |
| MintLedger.WlMintIsForListed | solidity/contracts/MerkleNFTAllowlist.sol:47-48 | only listed addresses mint from the allowlist, or a collision is computed |
| MintRules.WlMintRule | solidity/contracts/MerkleNFTAllowlist.sol:40-57 | in fields: exactly when the allowlist mint succeeds, flag, quantity, supply, price, limit and proof; only the sender's count and tokens grow |
| MintRules.PublicMintRule | solidity/contracts/MerkleNFTAllowlist.sol:59-73 | the same for the public mint |
| MintRules.MintedTokensAreOwned | solidity/contracts/MerkleNFTAllowlist.sol:53-55 | a receiver that makes no calls owns the minted ids, and no other token has changed hands |
| MintRules.TransferTokenRule | solidity/contracts/MerkleNFTAllowlist.sol:9 | moving an existing token changes its owner and nothing else |
| MintRules.OwnerRules | solidity/contracts/MerkleNFTAllowlist.sol:28-38 | exactly the owner sets the root, toggles, withdraws and passes on or gives up ownership, each changing its own field |
| MintRules.CallKeepsSettings | solidity/contracts/MerkleNFTAllowlist.sol:28-78 | a call that is not the owner's, and in which the owner makes none, changes no setting |
| MintRules.OutsidersChangeNoSettings | solidity/contracts/MerkleNFTAllowlist.sol:28-78 | over every run, reentrant calls included, without a call by the owner the root, both flags, the owner and the ETH paid out stay |
| MintLedger.PlainKeepsLedger | solidity/contracts/MerkleNFTAllowlist.sol:28-78 | token transfers, owner calls and withdrawals keep the ledger |
| MintLedger.CallKeepsLedger | solidity/contracts/MerkleNFTAllowlist.sol:28-78 | every call keeps it, reentrant calls included |
| MintLedger.LedgerHoldsAlways | solidity/contracts/MerkleNFTAllowlist.sol:40-77 | over all runs ids are 1 to the supply, once each; supply is the sum of all counts and at most 1000; counts are at most 2 and 5; ETH held is prices times counts less what was withdrawn |
| MintLedger.MerkleNFTAllowlist.constructor | solidity/contracts/MerkleNFTAllowlist.sol:26 | a new contract satisfies the ledger |
| MintLedger.MerkleNFTAllowlist.WlMint | solidity/contracts/MerkleNFTAllowlist.sol:40-57 | the method is the call of the specification, reverting without a trace |
| MintLedger.MerkleNFTAllowlist.PublicMint | solidity/contracts/MerkleNFTAllowlist.sol:59-73 | the method is the call of the specification, reverting without a trace |
| MintLedger.MerkleNFTAllowlist.SafeMintAll | solidity/contracts/MerkleNFTAllowlist.sol:53-55 | the loop with the receiver's calls inside it |
| MintLedger.MerkleNFTAllowlist.CallPlain | solidity/contracts/MerkleNFTAllowlist.sol:28-78 | the entry points that mint nothing, the inherited transfers of ownership included, as calls of the specification |
| MintLedger.MerkleNFTAllowlist.CallOne | solidity/contracts/MerkleNFTAllowlist.sol:28-78 | every entry point as a call of the specification |
| BaseFee.CalcNextBaseFee | go/eip1559/basefee.go:27-48 | the in-place arithmetic computes the specified fee, for every fee and gas value |
| BaseFee.AdjustmentIsOneDivision | go/eip1559/basefee.go:33-35 | the two divisions equal one by eight times the target |
| BaseFee.BlockBounds | go/eip1559/basefee.go:27-44 | one block moves the fee by at most an eighth, and the one-wei clamp does not fire |
| BaseFee.BlockMonotone | go/eip1559/basefee.go:27-44 | more gas and a higher fee never give a lower next fee |
| BaseFee.DiffersFromEip1559Only | go/eip1559/basefee.go:27-44 | for a positive fee the result is that of EIP-1559 unless gas is above target and the step rounds to zero, and is then one less; for a fee of zero it is that of EIP-1559 exactly when gas is above target, and otherwise one more |
| BaseFee.MinimumStepIsMissing | go/eip1559/basefee.go:27-44 | a concrete block above target that leaves a fee of 1 at 1, where EIP-1559 raises it to 2 |
| BaseFee.TrajectoryBounds | go/eip1559/basefee.go:27-44 | over n blocks of at most twice the target the fee stays between (7/8)^n and (9/8)^n of its start, never clamped |
| BaseFee.TrajectoryMonotone | go/eip1559/basefee.go:27-44 | pointwise larger gas and starting fee give pointwise larger fees |

## Left out

- Metrics, the HTTP server, signals, environment parsing, Kafka and SQL handlers, scripts and web files: input and output.
- `RealRPC` and its retries, and the SCDO client, JSON-RPC, transaction and wallet code: clients and wrappers. Its retry
  wrapper changes the error text that decides about shrinking, so shrinking is stated at the `RPCQuerier` interface.
- `TaskLoop`, the watchdog and backoff: timing. A cancellation may come at any of its three points in a round.
- A round after the batch size reached 0: the model ends the run until a restart, while the code would start another
  round with batch size 0.
- Reorganisations and falling heads: the chain is fixed, and a head is any number.
- Overflow of 64-bit block numbers and nonces, and confirmation depths near 2^64.
- JSON payloads in Redis and index members that are not numbers: payloads are taken to round-trip.
- Partly written checkpoint files: the store is a register whose failing save did or did not take effect.
- Durability of the in-memory pool: restarts are of a deployment whose pool survives.
- Confirmation per log at batch sizes above 1: the pool is keyed by the start of a batch, so the bound has a slack of one
  batch. Exactly-once delivery: rounds restart at the checkpoint and deliver again.
- `HandleBatch` and the handler: what is handed out is recorded, and a handler accepts or refuses a whole batch.
- The digest in `uniqueKey`: the pair of block and transaction stands for it.
- LogTaskProgram.LogTask.RunOnce: the oracle chooses each outcome from the call number and range; the body of the loop is
  split into helper methods, and slots held by other tasks are not modelled.
- LogTaskProgram.RPCSemaphore.Acquire: does not model the capacity or waiting, only the slots this task holds.
- Signature recovery and digests of the lock: a withdrawal carries who signed it.
- Several tokens, chain ids, the ERC20's allowances and checks for the zero address: one standard token and one peg.
- The relayer's mutex: the transition system interleaves the phases freely, the loop runs handlers one after another.
- Bytecode.PatchedCodeRunsAsIntended: machines whose instructions read the code, such as CODECOPY, are not covered; the
  constructors that copy their contract's code out are among them.
- Liveness of the relayer: a failed event that is never delivered again is never retried.
- Keccak-256 itself: the hash is any function to 32 bytes.
- The other Merkle libraries and scripts that build roots (`scripts/merkle-gen.js` encodes leaves differently).
- BuildMerkleTree: an empty list of leaves, on which the source panics, is excluded.
- ERC721 approvals, metadata and zero-address checks: any holder's token may move at any time.
- ETH forced into the NFT contract, and an owner who cannot receive ETH.
- Events of the V1 token and of the NFT, and gas.

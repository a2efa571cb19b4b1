# Fairchain: verified model of the consensus core

This project models the node's consensus state machine in Dafny and proves what it
keeps over every run, together with the data structures it relies on. Verify it with
`dafny verify dfyconfig.toml`.

**The chain.** `Chains.Chain` is the chain manager: `ProcessBlock` extends the tip,
stores a side block, parks an orphan or runs a two-phase reorganisation (a dry run on a
clone of the UTXO set, then the commit). Its invariant `StateOk` ties the store, the
height maps, the tip and the live UTXO set to one valid chain, whose `Replay` — the
genesis outputs, then every transaction one at a time — is the UTXO set. Its contract
decides every outcome (`ChainRules.Verdict`) and gives the state after it
(`ChainRules.Exact`), including the row of tries to attach waiting blocks
(`ChainRules.Tries`). `Safety.Run` states safety over all runs of blocks, write failures,
restarts and crashes: the writes of an extension are listed as the stores they leave
behind, and `Init` recovers from each. `Safety.RunFromNothing` starts such runs on an
empty store.

**The rules.** `TxValidation`, `BlockValidation` and `MedianTime` are the scanning loops
with their 64-bit wrap guards, proved to accept exactly what the rules, stated over true
integers, accept. `Coins` and `BlockForm` say the same without those rules: a block is
accepted exactly if it has a certain form and each transaction is honest on the set the
ones before it leave. `Ledger`, `Supply` and `Books` draw the consequences for whole
chains: ids never repeat, outputs are always fresh, value is conserved, the supply is
bounded, no output is spent twice or without its script, and the UTXO set is exactly the
outputs made and not spent. `ReorgLimits` bounds what the node gives up of its chain in a
day.

**Fast structures and simple ones.** The header index against walking parents, the block
locators and a round of header sync, the merkle loop, the mempool with its fee heap, and
the block-download scheduler.

**Arithmetic and formats.** Compact targets and the proof-of-work comparison, varints,
transactions, headers, blocks, undo records, with the place of every field in its bytes
(`Layout`), and coin selection with fees.

What the model is relative to is the datatype `Types.Rules`: the network parameters, and
as functions the transaction id, the header hash, the merkle pair hash, script
verification (including the exemption of legacy scripts), the engine's header check, the
weight of a header, and the work check of an orphan. Collision-freeness is never assumed
of these functions as a whole: it is a hypothesis on the finitely many blocks handed to
the node (`ChainState.World`, which `Safety.WorldIsPossible` meets with mainnet's
parameters and `Scenario.ScenarioWorld` with ten thousand blocks), and
`UndoCodec.DigestIds` derives it for ids from the digest, since serialization is
injective. Time, the bytes of the store and failures of the block, undo, index and UTXO
writes are inputs.

## Findings

Properties one would expect and that do not hold of the code as it is. The model keeps the
code; the members named show inputs on which the property fails and state exactly when it
holds.

- The side-chain ancestor lookup of the chain manager equals the parent walk if and only
  if all headers from the parent down to the main chain are stored
  (`AncestorLookup.BuildAncestorLookup`); otherwise it answers with main-chain headers
  (`AncestorLookup.LookupBroken`). Without a depth limit for reorganisations all headers
  are always stored (`Chains.Chain.WalksAreStored`). With the limit 1000, one of the
  limits in use (internal/params/networks.go:203), they may not be: `BrokenWalk.BreakWalk`
  runs a node from an empty store to a state in which a block has a height entry and its
  parent has no record. A heavy invalid block and its child are kept aside as too deep, a
  reorganisation prunes the height entry of the block and not of the child, another brings
  it within the limit, and then the block, handed in again, is found invalid and its
  record deleted. Deleting a record keeps the index parent-closed exactly if no other
  stored block builds on it (`Closure.ForgetClosed`).
- A headers reply that attaches to the requester's best chain need not be taken up,
  because pruning the header index may drop the lower part of a fork that later becomes
  the best chain: `Scenario.LosingIndex` reaches such an index by adding headers, and
  `Scenario.IgnoredReply` shows a reply that is ignored. Pruning keeps the index
  parent-closed exactly when every header just above the threshold has its parent on the
  best chain (`HeaderIndexes.PruneClosed`), and on a parent-closed index every non-empty
  reply is taken up (`Sync.SyncRound`).
- A peer can have more than sixteen requests in flight, because a delivered block is
  counted for the peer that delivers it and not for the one that was asked
  (`Overload.SeventeenRequests`). The counters stay right exactly as long as blocks come
  from the peers that were asked (`Schedulers.BlockScheduler.BlockReceived`), and while
  they are right the limit holds (`Schedulers.BlockScheduler.AssignWork`).
- Largest-first coin selection prices every choice with two outputs: a coin that pays
  without change is refused (`CoinSelection.RefusedThoughPaid`). A payment is built
  exactly when some choice of coins pays with two outputs (`CoinSelection.BuildPayment`).
- An amount close to 2^64 wraps together with the fee, and a payment is built that spends
  more than its inputs (`CoinSelection.WrappedPayment`). For all inputs, a payment is
  within what its coins are worth exactly if they are worth the amount and the fee with
  change, or, where there is no change output, the amount
  (`CoinSelection.BuildPayment`, `CoinSelection.PaysOut`).
- The merkle root is ambiguous without the duplicate check and across depths
  (`Merkle.DuplicateTailKeepsRoot`, `Merkle.ShallowerListSameRoot`);
  `Merkle.RootDeterminesList` has the condition.
- A transaction in the mempool may not be final at the next block's median time, because
  admission uses the current time (`Scenario.AdmittedTooEarly`);
  `TxValidation.AdmittedFitsNextBlock` gives the exact condition.
- A crash in the commit phase of a reorganisation is not always recovered from. The node
  comes up on the old chain, or above the height of the old tip on the new one as far as
  it was connected, with the right live set (`SwitchCrash.CrashInSwitch`). But rebuilding
  only writes: stale entries stay in the chainstate, which agrees with the live set exactly
  if there were none (`Recovery.Intact`, `Chains.Chain.Init`), and the next start takes
  them as unspent (`SwitchCrash.TwoStarts`). `StaleStart.CutOff` reaches such a store with
  the first write of a reorganisation, and `StaleStart.LostSet` starts on it twice: the
  live set then has an output that the chain has spent. A crash just before the tip
  record, which the comment at internal/chain/chain.go:1214-1217 calls safe, is so exactly
  if the new tip is higher than the old one or nothing stale is left
  (`SwitchCrash.IntactAfter`).
- The limit on the blocks dropped in 24 hours is computed in 32 bits, and bounds them
  exactly if the sum cannot pass 2^32 before it passes the limit, as with every network's
  parameters; otherwise the switches it allows add up without bound
  (`ReorgLimits.LimitsBoundExactly`). It counts from the last start, because the records
  are in memory only: after a start every switch within the depth limit is allowed, also
  one that was refused before it (`ReorgLimits.StartForgets`). Between two starts, while
  the clock does not run backwards, it holds over every run (`Safety.Run`).
- More than 1024 blocks can be staged, because the limit stops the assignment of work and
  not staging itself (`Overload.FullStaging`, without draining in between). Staging stays
  within the limit in every run of deliveries exactly if what is in flight and staged
  together does (`Overload.Deliveries`, `Overload.StageAll`); in-flight plus staging always
  stays below 1536.

## Model

| member | source | states |
|---|---|---|
| Safety.Run | internal/chain/chain.go:557-831 | over every sequence of incoming blocks (with any failures of the block, undo, index and UTXO writes, for the block and for each one waiting behind it), restarts, and crashes between the writes of an extension, also of one by a waiting block: the node stays consistent, the live UTXO set is the replay of a valid main chain and exactly its unspent outputs, every input on that chain opens an earlier output with that output's script, no transaction id repeats, the coins stay within genesis plus subsidies (on mainnet within MaxMoneyValue), the tip's work is the chain's summed work and never decreases; every move of the main chain leads to a valid chain, to more work if it drops a block; since the last start, while the clock does not run backwards and where the 32-bit sums fit, no move drops more blocks than the depth limit and those of no 24 hours more than three times the limit; without a depth limit and without trusted headers, the chain's headers obey the timestamp rule on their own ancestors |
| Safety.RunFromNothing | internal/chain/chain.go:166-379 | the same for every run that starts on an empty store, with the daily limit from the first block on |
| Safety.Deliver | internal/chain/chain.go:557-831 | one block handed to the node, on fields alone: it gets in exactly if its header is trusted or accepted by the engine, not too far ahead of the clock and later than the rule asks, and the block has the right form; on the tip it is accepted exactly if it makes the chain a longer valid one and no write fails; off the tip without more work it is kept aside; with more work on a stored branch it is kept aside exactly if the switch would drop more blocks than the limit, or more than three times the limit together with the moves of the last 24 hours, and otherwise switched to exactly if the new chain is valid |
| ReorgLimits.MoveAccounted | internal/chain/chain.go:989-1010 | the records the node keeps give the blocks dropped in any 24 hours up to now or later, and stay within the limit where the 32-bit sums fit |
| ReorgLimits.KeptAside | internal/chain/chain.go:756-793 | the decision on a stored branch with more work, from the blocks dropped that day |
| ReorgLimits.OtherwiseDecided | internal/chain/chain.go:652-824 | the decision on every other block that passes the checks |
| ReorgLimits.LimitsBoundExactly | internal/chain/chain.go:991-1002 | the depths of switches the limits allow add up to at most three times the limit exactly if the 32-bit sum cannot pass 2^32 before it passes the 32-bit limit; otherwise they add up without bound |
| ReorgLimits.StartForgets | internal/chain/chain.go:96 | after three switches of full depth no other is allowed that day, and after a start, which has no records, all within the depth limit are |
| Safety.TimedChain | internal/consensus/validation.go:135-156 | if every header of the tree was accepted on its own ancestors, the headers of the main chain are a chain accepted under the timestamp rule |
| Safety.FinalOnChain | internal/consensus/txvalidation.go:31-63 | so a transaction final at one block of the node's chain is final at every later one |
| Safety.StateIsSound | internal/chain/chain.go:557-831 | what the state invariant implies: replay, books, summed work, distinct ids, bounded coins |
| Safety.Start | internal/chain/chain.go:166-280 | a node started on any store whose chain is held comes up on that chain, with the chainstate as live set where it belongs to the end of the chain and the replay otherwise; the live set is sound exactly if that is the replay; the node is consistent exactly if the store was intact: undo data there, and a right chainstate where it is taken, none stale where it is written over |
| Safety.FirstStart | internal/chain/chain.go:332-379 | a node started on nothing is ready for blocks, on genesis |
| Safety.Reboot | internal/chain/chain.go:166-280 | stopping between two blocks and starting again on the store gives the same chain, work and UTXO set; the record of reorganisations is empty |
| Safety.CrashAndRestart | internal/chain/chain.go:652-742 | a crash after any of the writes that extend the tip, by the block or by one waiting behind it: the node that comes up on the store left behind is consistent and has at least the work of the old one |
| Safety.CrashIsStartable | internal/chain/chain.go:652-742 | any store the extension path can leave behind is one Init recovers from, with at least the old work |
| Chains.Chain.ProcessBlock | internal/chain/chain.go:557-831 | keeps the invariant; never lowers tip work; duplicates are refused; a block with unknown parent is parked exactly when its declared work passes; a block that fails the common checks is refused without a change; one that passes is accepted, kept aside or refused exactly as Verdict says: a child of the tip exactly if it is valid and no write fails; off the tip refused if it cannot be written, without more work a side block, with more work accepted exactly if its branch is stored, the depth limits allow it and the switched chain is valid, kept aside exactly if too deep; Exact gives tip, maps, records, chain and reorganisation history afterwards, and Followed the tries to attach waiting blocks and the pruning that come next |
| Chains.Chain.ProcessChild | internal/chain/chain.go:610-831 | the same for a new block on a known parent |
| Chains.Chain.FollowUp | internal/chain/chain.go:819-831 | waiting blocks are tried, then side entries more than 1000 below the tip are pruned after an acceptance |
| Chains.Chain.AcceptBlock | internal/chain/chain.go:652-824 | accepts, keeps aside or refuses a checked block exactly as Verdict says, with the state Exact says; the stores of its trace survive a crash |
| Chains.Chain.AcceptOffTip | internal/chain/chain.go:756-824 | off the tip: the exact verdict, and the exact state after each outcome; a failed write changes nothing, a refused switch deletes the record the block had, if any, and changes nothing else of the store |
| Chains.Chain.SwitchTo | internal/chain/chain.go:756-793 | a block with more work: accepted exactly if its branch is stored, the depth limits allow it and the switched chain is valid; kept as a side block exactly if the branch is stored and too deep; otherwise refused, and its record deleted, also one it had before |
| Chains.Chain.CheckBlock | internal/chain/chain.go:610-650 | passes exactly the blocks whose parent record is stored, whose header passes on the built lookup (unless trusted) and whose structure is valid; the lookup is the block's own ancestors exactly when their headers are stored down to the main chain; computes cumulative work |
| Chains.Chain.ExtendTip | internal/chain/chain.go:652-755 | succeeds exactly when the block is valid on the chain and no write fails; on failure chain, maps and UTXO set are unchanged, and the store too, except that a failed UTXO flush leaves the new index record; the store after the index record, after the chainstate batch and after the tip record is each recoverable with the old chain or the longer one |
| Chains.Chain.ExtendReady | internal/chain/chain.go:652-755 | the same between calls, keeping also the records and the orphan pool consistent |
| Chains.Chain.ConnectTip | internal/chain/chain.go:687-742 | connecting a validated child cannot fail; each failing write rolls the live set back to the exact prior set; which failures leave the index record behind |
| Chains.Chain.IndexConnected | internal/chain/chain.go:703-720 | with the index record written, the state is consistent for the old tip and for the new one |
| Chains.Chain.PersistUtxoChanges | internal/chain/chain.go:853-877 | the write batch turns the old durable set into exactly the new live set |
| Chains.Chain.AdvanceTip | internal/chain/chain.go:942-952 | moves the tip on disk and in memory; before and after that write the store is recoverable with the longer chain |
| Chains.Chain.ParentMedianTime | internal/chain/chain.go:655-657 | the median time used for a child of the tip is the main chain's own median-time-past |
| Chains.Chain.Init | internal/chain/chain.go:166-267 | from every store whose chain is held, whatever its chainstate holds, with the recorded tip at the end of the chain or at the end of a shorter stored chain the chainstate is ahead of, and from a store without a tip: which chain, live set and chainstate it ends with, and that the node is consistent exactly if the store was intact |
| Chains.Chain.LoadUtxoSet | internal/chain/chain.go:208-267 | the chainstate is taken if it belongs to the tip, followed if it is ahead, and replaced by the replay otherwise |
| Chains.Chain.LoadIndex | internal/chain/chain.go:171-206 | the in-memory index of the recorded tip: heights of all records, hashes and work along the stored chain |
| Chains.Chain.AdvanceToChainstate | internal/chain/chain.go:215-250 | a chainstate ahead of the recorded tip moves the tip to it, also to another branch |
| Chains.Chain.WalkBack | internal/chain/chain.go:188-206 | the walk from a stored block yields exactly the path to genesis and its summed work |
| Chains.Chain.RebuildUtxoSet | internal/chain/chain.go:291-330 | replaying the stored blocks cannot fail on a valid chain and yields its replay; it is written over whatever the chainstate held |
| Chains.Chain.InitGenesis | internal/chain/chain.go:332-379 | the first start ends consistent on genesis, and a crash after any of its writes leaves a store to start from |
| Chains.Chain.FindBranch | internal/chain/chain.go:955-980 | finds the branch down to the fork exactly when all its headers are stored; the branch is parent-linked, ascending and off the main chain |
| Chains.Chain.WithinDepth | internal/chain/chain.go:982-1010 | the per-reorganisation and the 24-hour depth limits, summed in 32 bits, and which records are forgotten; what they allow is said by ReorgLimits.KeptAside and Safety.Run |
| Chains.Chain.Trial | internal/chain/chain.go:1019-1104 | the dry run on a clone passes exactly when the switched chain is valid, and leaves the live state alone |
| Chains.Chain.TrialDisconnect | internal/chain/chain.go:1029-1061 | disconnecting the clone down to the fork gives the replay of the chain up to the fork |
| Chains.Chain.TrialConnect | internal/chain/chain.go:1066-1104 | connecting the branch succeeds exactly when every branch block is valid on its predecessors |
| Chains.Chain.CommitDisconnect | internal/chain/chain.go:1115-1150 | no live disconnect can fail; live and durable sets reach the replay up to the fork; the store after each batch |
| Chains.Chain.CommitConnect | internal/chain/chain.go:1163-1205 | no live connect can fail; live and durable sets reach the replay of the switched chain; the store after each batch and after each record |
| Chains.Chain.RemoveOldBranch | internal/chain/chain.go:1207-1213 | exactly the old branch's entries leave both height maps |
| Chains.Chain.Commit | internal/chain/chain.go:1106-1246 | after a passed trial the commit phase reaches a consistent state with the switched chain; records change in undo data only, branch blocks gain height entries and side blocks keep theirs; its writes are listed in order |
| Chains.Chain.Reorganise | internal/chain/chain.go:954-1246 | all or nothing: it switches exactly when the branch is stored, the depth limits allow it and the switched chain is valid; otherwise tip, maps, store and UTXO set are unchanged |
| Chains.Chain.BranchMedianTime | internal/chain/chain.go:1066-1083 | each branch block is judged at the median time of its own ancestors |
| Chains.Chain.StoreBlock | internal/chain/chain.go:764-817 | storing a block off the main chain keeps the invariant |
| Chains.Chain.ForgetBlock | internal/chain/chain.go:783-792 | dropping a block off the main chain keeps the invariant, and keeps the stored index parent-closed exactly if no other stored block builds on it |
| Closure.ForgetClosed | internal/chain/chain.go:783-792 | dropping a record keeps an index parent-closed exactly if no other stored block builds on it |
| Closure.ClosedWalk | internal/chain/chain.go:1486-1520 | in a parent-closed index the headers of every stored block are stored down to the main chain |
| Chains.Chain.WalksAreStored | internal/params/networks.go:248 | without a depth limit no step breaks this: in every state of the node the headers of every block with a height entry are stored down to the main chain |
| BrokenWalk.BreakWalk | internal/params/networks.go:203 | with the depth limit 1000 it can break: a run from an empty store, block by block, to a consistent node with a height entry whose walk is not stored |
| Chains.Chain.AttachOrphan | internal/chain/chain.go:1346-1452 | a waiting block ends as any other block would, with the same state afterwards, except that one too deep to switch to is kept without being followed up; its children come next exactly if it was accepted or stored without more work than the tip |
| Chains.Chain.AttachOffTip | internal/chain/chain.go:1433-1450 | off the tip, once written: the verdict and the exact state of an ordinary block, though the height entry is made before the reorganisation |
| Chains.Chain.ProcessOrphans | internal/chain/chain.go:1320-1455 | resolving waiting blocks terminates, keeps the invariant, leaves no orphan waiting for the accepted block, and leads from the old state to the new one by a row of tries, each with the verdict and the exact state the rules give |
| Chains.Chain.ResolveNext | internal/chain/chain.go:1327-1454 | the children of the next block are tried in ascending order of their hashes, all of them or up to the first reorganisation; those attached are queued, or only the new tip after a reorganisation |
| Chains.Chain.ChildrenOf | internal/chain/chain.go:1331-1344 | the orphans of a parent, each once, in ascending hash order |
| Chains.Chain.PruneSideChainIndex | internal/chain/chain.go:833-847 | drops exactly the height entries more than 1000 below the tip that are off the main chain |
| Chains.Chain.EvictExpiredOrphans | internal/chain/chain.go:1264-1274 | drops exactly the orphans older than the expiry |
| Chains.Chain.EvictOldestOrphan | internal/chain/chain.go:1296-1313 | drops one orphan of the earliest arrival |
| Chains.Chain.ParkOrphan | internal/chain/chain.go:580-608 | parks a block exactly when its declared work passes; expired orphans go first, then one of the oldest if the pool of 100 is still full |
| AncestorLookup.BuildAncestorLookup | internal/chain/chain.go:1486-1520 | for heights up to the parent's, the lookup equals the plain parent walk if and only if all headers from the parent down to the main chain are stored |
| AncestorLookup.LookupBroken | internal/chain/chain.go:1486-1520 | where a side-chain header is missing, as in the state BrokenWalk.BreakWalk reaches, the lookup gives a wrong answer at its height |
| Recovery.RecoveredState | internal/chain/chain.go:175-248 | maps rebuilt from a stored valid chain satisfy the whole state invariant |
| Recovery.BareRecovered | internal/chain/chain.go:175-248 | without the undo data everything else is as in a consistent state, and the state is consistent exactly if the undo data is stored |
| Recovery.TipWriteRecoverable | internal/chain/chain.go:942-952 | the store is recoverable with the longer chain on both sides of the tip write |
| Recovery.StateStartable | internal/chain/chain.go:166-280 | a consistent node's store is intact and can be restarted from at any time |
| ChainState.StateRecoverable | internal/chain/chain.go:166-280 | a consistent state with a durable tip is recoverable |
| ChainState.ConnectStep | internal/utxo/utxo.go:231-371 | on a valid chain, connecting each block succeeds, moves the replay forward by it, and its undo data moves back |
| ChainState.ExtendState | internal/chain/chain.go:652-742 | the state invariant after the tip moves to a valid child |
| ChainState.OffMainUpdate | internal/chain/chain.go:764-817 | changing records or heights off the main chain keeps the state invariant |
| ChainState.SwitchMain | internal/chain/chain.go:1116-1246 | the main-chain maps after a switch describe the switched chain |
| ChainState.MedianOfPath | internal/consensus/validation.go:216-244 | with a correct ancestor lookup the computed median is the chain's own |
| Reorg.SwitchState | internal/chain/chain.go:1116-1246 | what the commit phase writes is a consistent state with the switched main chain |
| Commits.CrashInDisconnect | internal/chain/chain.go:1115-1150 | a crash after any batch of the disconnects: the old chain is rebuilt |
| Commits.CrashInConnect | internal/chain/chain.go:1163-1205 | a crash after any batch or record of the connects: up to the height of the old tip the old chain is rebuilt, above it the node follows the new chain as far as it was connected, with its undo data exactly if the last record has it |
| SwitchCrash.CrashInSwitch | internal/chain/chain.go:1106-1246 | for every crash in the commit phase of a reorganisation: which chain the node comes up on, that its live set is the replay of that chain, and that it is consistent exactly if the store left behind was intact |
| SwitchCrash.TwoStarts | internal/chain/chain.go:291-330 | where the first start rebuilds, the second takes the old chainstate with the replay written over it as its live set; both nodes are consistent, and the second live set is right, exactly if nothing stale was there |
| StaleStart.CutOff | internal/chain/chain.go:1141-1144 | a run to the first write of a reorganisation that leaves a stale entry: the reward the last block of the chain spends |
| StaleStart.LostSet | internal/chain/chain.go:253-266 | started twice on that store, the node has an output as unspent that its chain has spent |
| Persistence.ConnectBatchExact | internal/chain/chain.go:853-877 | deletions of spent entries and puts of created ones turn the old set into exactly the set after the block |
| Persistence.ConnectBatch | internal/chain/chain.go:853-877 | the batch built by the loops over undo data and outputs |
| Persistence.DisconnectBatch | internal/chain/chain.go:881-900 | the batch that undoes a block on disk |
| Utxo.ConnectIsSequential | internal/utxo/utxo.go:248-334 | collect-then-apply equals applying the transactions one at a time, and fails on the same blocks |
| Utxo.DisconnectUndoesConnect | internal/utxo/utxo.go:231-371 | disconnecting with the undo data restores the exact prior set for every block with fresh outputs, also for outputs created and spent inside it |
| Utxo.CollectRepresents | internal/utxo/utxo.go:248-334 | after every transaction the block-local view stands for the sequential state |
| UtxoSets.UtxoSet.ConnectBlock | internal/utxo/utxo.go:231-337 | collects and applies a block's changes, or fails and changes nothing; that the set it leads to holds exactly the unspent outputs, each with its own fields, is Books.ChainBooks |
| UtxoSets.UtxoSet.DisconnectBlock | internal/utxo/utxo.go:342-371 | removes the block's outputs and restores the undo entries |
| UtxoSets.UtxoSet.ConnectGenesis | internal/utxo/utxo.go:378-402 | adds the genesis outputs except legacy placeholders |
| UtxoSets.UtxoSet.TotalValue | internal/utxo/utxo.go:213-224 | the true sum, or the sentinel exactly when the true sum does not fit |
| UtxoSets.UtxoSet.Clone | internal/chain/chain.go:1248-1260 | a copy with the same entries |
| TxValidation.ValidateTransactionInputs | internal/consensus/txvalidation.go:128-336 | accepts exactly the blocks whose transactions satisfy the rules and whose coinbase pays at most subsidy and fees, and returns the fees; what the rules mean on the set is Coins.BlockDecided |
| Coins.BlockDecided | internal/consensus/txvalidation.go:128-341 | in plain terms: the transactions of a block with new ids are accepted exactly if each one, on the set those before it leave, spends different entries of it, each with its own script, mature if a coinbase made it and past the lock of its sequence number, pays out at most what it spends, has positive outputs and a lock time that passed; and the coinbase pays at most the subsidy and what the others leave over |
| Coins.SpendDecided | internal/consensus/txvalidation.go:180-312 | one transaction of a block: accepted on the block-local maps exactly if honest on the set they stand for, and its fee is what it leaves of the value it spends |
| Coins.SingleDecided | internal/consensus/txvalidation.go:345-468 | one transaction in the mempool: the same on the set and the outputs of unconfirmed parents |
| Books.ChainBooks | internal/utxo/utxo.go:231-338 | every valid chain, stated on its blocks alone: each id occurs at one place; no output is spent twice; every input opens an output made earlier with that output's script, after maturity and after its relative lock; no transaction pays out more than it spends; lock times have passed; and the replay holds exactly the outputs made and not spent, each with the value, script, height and coinbase flag of the output that made it |
| Books.OneOrigin | internal/utxo/utxo.go:310-335 | every entry of the replay comes from exactly one transaction of the chain, has the fields of that transaction's output, and was not spent |
| Books.InputOpens | internal/consensus/txvalidation.go:205-300 | every input of a valid chain spends an output made earlier, with its script, and a coinbase's no earlier than the maturity allows |
| Books.NoDoubleSpend | internal/consensus/txvalidation.go:197-252 | no two inputs of a valid chain spend the same output |
| TxValidation.ScanTransactions | internal/consensus/txvalidation.go:141-316 | the scan accepts exactly when every transaction is valid on those before it and the fee total fits |
| TxValidation.CheckInputs | internal/consensus/txvalidation.go:200-253 | resolves the inputs in-block first, refuses double spends and missing or immature entries, and sums exactly |
| TxValidation.CheckOutputs | internal/consensus/txvalidation.go:255-270 | accepts exactly positive outputs whose true sum is within MaxMoneyValue |
| TxValidation.CheckTransactionFinality | internal/consensus/txvalidation.go:31-63 | accepts exactly final transactions |
| TxValidation.CheckSequenceLocks | internal/consensus/txvalidation.go:69-104 | accepts exactly when every relative lock against the confirmed set is satisfied |
| TxValidation.ValidateSingleTransaction | internal/consensus/txvalidation.go:345-467 | the mempool's acceptance rule and the true fee |
| TxValidation.AdmittedFitsNextBlock | internal/consensus/txvalidation.go:345-467 | a transaction admitted on confirmed outputs alone is valid in the next block exactly if it is also final at that block's median time, with the same fee |
| Scenario.AdmittedTooEarly | internal/consensus/txvalidation.go:452-461 | a transaction that is admitted by the clock and is not valid in the next block one second of median time earlier |
| Amounts.AddUpOutputs | internal/consensus/validation.go:108-116 | the coinbase output sum, or an error exactly on overflow |
| BlockValidation.ValidateBlockStructure | internal/consensus/validation.go:32-119 | accepts exactly structurally valid blocks; what these are is BlockForm.StructureDecided |
| BlockForm.StructureDecided | internal/consensus/validation.go:32-121 | in plain terms: the version, exactly the first transaction a coinbase, whose script pushes the height without a superfluous byte, different ids, the header's root the merkle root of the ids, the limits on the number of transactions and on the bytes of the serialization, and a coinbase sum that fits |
| BlockForm.BlocksFormed | internal/consensus/validation.go:32-121 | every block of a valid chain above genesis has this form and names its parent |
| BlockValidation.RootDeterminesBlock | internal/consensus/validation.go:82-94 | blocks that pass with the same merkle root hold the same transactions, if their trees have one depth and nothing collides |
| BlockValidation.ValidateCoinbaseScriptSig | internal/consensus/validation.go:165-200 | accepts exactly the scripts with a minimal push of the height |
| BlockValidation.AcceptedScripts | internal/consensus/validation.go:165-213 | accepted scripts are exactly those of 2 to 100 bytes that start with the one minimal little-endian push of the height |
| MedianTime.CalcMedianTimePast | internal/consensus/validation.go:216-244 | the median of up to eleven timestamps, by in-place insertion sort |
| MedianTime.InsertionSort | internal/consensus/validation.go:232-241 | sorts the array in place to the reference sort |
| MedianTime.ValidateHeaderTimestamp | internal/consensus/validation.go:135-156 | the two timestamp rules and the future limit |
| MedianTime.MedianAtLeast | internal/consensus/validation.go:216-244 | the median reaches a bound exactly when at least half of the window does |
| MedianTime.MedianNeverDecreases | internal/consensus/validation.go:135-156 | along any header chain accepted under either rule, short windows included, median-time-past never decreases (BIP 113, Specification) |
| MedianTime.FinalityIsStable | internal/consensus/txvalidation.go:31-63 | a transaction final at one block is final at every descendant |
| MedianTime.ClocksBoundMedian | internal/consensus/validation.go:135-156 | headers accepted by clocks that allow timestamps up to a bound, and their median time, are within it, so no transaction locked until then is final |
| HeaderRules.TimedPath | internal/consensus/validation.go:135-156 | along any path of a tree whose headers were accepted on their own ancestors, the headers are a chain accepted under the rule |
| Ledger.TxidsNeverRepeat | internal/consensus/validation.go:165-213 | on a valid chain no transaction id occurs twice (BIP 34, Specification, plus induction on spent inputs) |
| Ledger.OutpointsCreatedOnce | internal/consensus/validation.go:45-88 | each outpoint is created at most once on a valid chain |
| Ledger.ValidBlockIsFresh | internal/consensus/txvalidation.go:172-253 | the outputs of a valid block are absent from the set it is applied to, and applying it gives the replay of the longer chain |
| Ledger.ChainHistory | internal/consensus/txvalidation.go:172-253 | the history invariant along every valid chain: distinct ids, owned outputs, spent inputs gone for good |
| Supply.TxTotal | internal/consensus/txvalidation.go:200-316 | a valid transaction takes exactly its fee out of the total |
| Supply.BlockTotal | internal/consensus/txvalidation.go:318-335 | a valid block changes the total by exactly its coinbase less its fees, and raises it by at most the subsidy |
| Supply.ChainTotal | internal/consensus/txvalidation.go:318-335 | over a chain the total exceeds genesis by at most the summed subsidies |
| Supply.MainnetCoinsBounded | internal/params/networks.go:15-18 | on mainnet the coins never exceed MaxMoneyValue less the unspendable genesis reward, so the overflow sentinel is never returned |
| Subsidy.MainnetSupply | internal/params/params.go:72-81 | mainnet subsidies never sum to more than MaxMoneyValue and reach it exactly from height 6930000 on |
| Subsidy.SubsidyBound | internal/params/params.go:72-81 | no subsidy exceeds the initial one |
| Merkle.MerkleRoot | internal/crypto/merkle.go:18-41 | the level loop computes the recursive root |
| Merkle.RootDeterminesList | internal/crypto/merkle.go:18-41 | with collision-free pair hashing, duplicate-free lists of one depth have equal roots only if equal |
| Merkle.DuplicateTailKeepsRoot | internal/consensus/validation.go:76-94 | without the duplicate check the root is ambiguous |
| Merkle.ShallowerListSameRoot | internal/crypto/merkle.go:18-41 | without equal depths the root is ambiguous |
| HeaderIndexes.HeaderIndex.constructor | internal/chain/headers.go:86-110 | an index holding genesis, parent-closed |
| HeaderIndexes.HeaderIndex.AddHeader | internal/chain/headers.go:161-247 | which headers are duplicates, rejected, orphans, over capacity, invalid or added; one with an indexed parent is added exactly if the engine accepts it and its timestamp is within the clock's limit and later than the rule asks; the new node's height, work and parent; it becomes best exactly with more work; keeps maximal work of the best header and bestChainByHeight as its ancestor list; keeps the index parent-closed exactly if the pruning it triggers, if any, finds no fork at the first kept height |
| HeaderIndexes.HeaderIndex.AddChild | internal/chain/headers.go:178-250 | the same for a header whose parent is indexed |
| HeaderIndexes.HeaderIndex.InsertTrustedHeader | internal/chain/headers.go:125-159 | adds a header with known parent without checks, loses nothing and stays parent-closed |
| HeaderIndexes.HeaderIndex.Insert | internal/chain/headers.go:213-247 | the new node's height, work and parent, the best header, and pruning at every hundredth height |
| HeaderIndexes.HeaderIndex.RebuildHeightIndex | internal/chain/headers.go:252-269 | append or rebuild, the slice is exactly the best header's ancestor list |
| HeaderIndexes.HeaderIndex.PruneStaleForks | internal/chain/headers.go:275-307 | removes exactly the headers more than 2016 below the best one whose hash is not on its chain |
| HeaderIndexes.HeaderIndex.AddRejected | internal/chain/headers.go:473-484 | remembers the hash, at most 50000, forgetting the oldest first |
| HeaderIndexes.HeaderIndex.BuildAncestorLookup | internal/chain/headers.go:493-515 | for heights up to the parent's, the lookup is the parent walk, on forks too |
| HeaderIndexes.HeaderIndex.HeaderLocator | internal/chain/headers.go:396-426 | terminates despite the wrapping step; names the best chain's hashes at the locator heights |
| HeaderIndexes.HeaderIndex.HeadersToFetch | internal/chain/headers.go:431-463 | consecutive best-chain hashes from a height, as many as there are within the limit |
| HeaderIndexes.PruneClosed | internal/chain/headers.go:275-307 | pruning keeps the index parent-closed exactly when every header just above the threshold has its parent on the best chain |
| HeaderIndexes.ClosedLine | internal/chain/headers.go:275-307 | in a parent-closed index every ancestor of an indexed header is indexed |
| Scenario.LosingIndex | internal/chain/headers.go:275-307 | an index reached by adding headers one at a time that has lost 84 headers of its best chain |
| Locator.LocatorShape | internal/chain/chain.go:469-502 | a locator descends strictly from the tip to genesis in at most 43 entries |
| Locator.LoopIsLocator | internal/chain/headers.go:396-426 | what either locator loop produces is the closed-form list of heights |
| Locator.FirstCommonEntry | internal/chain/chain.go:469-502 | the first entry on a common prefix is at most twice the fork depth below the tip |
| Sync.BlockLocator | internal/chain/chain.go:469-502 | terminates and names the main chain's hashes at the locator heights |
| Sync.PeerLine | internal/chain/chain.go:942-1246 | in every consistent state hashByHeight is defined exactly from 0 to the tip and parent-linked from genesis, and heightByHash inverts it |
| Sync.FindMainChainHash | internal/chain/chain.go:506-518 | finds a hash exactly when it is on the main chain |
| Sync.HandleGetHeaders | internal/p2p/manager.go:3486-3543 | a contiguous main-chain run above the first locator hash on the chain, up to 2000 headers, the tip or the stop hash |
| Sync.HeadersConnect | internal/p2p/manager.go:3374-3413 | a batch goes on exactly if its first header connects to the index and each follows the one before |
| Sync.SyncRound | internal/p2p/manager.go:3486-3543 | a reply starts on the requester's best chain at most twice the fork depth below its tip; it is non-empty whenever the peer has more; on a parent-closed index, or one in which every locator hash is indexed, every non-empty reply is taken up |
| Scenario.IgnoredReply | internal/p2p/manager.go:3374-3413 | a node and a peer, both reached from genesis, between which a non-empty reply is ignored |
| Scenario.ScenarioWorld | internal/chain/chain.go:557-831 | a world of ten thousand blocks meets the hypotheses of the safety theorems |
| Sync.ForkExists | internal/chain/chain.go:506-518 | two header lines without hash collision part at one height |
| Target.CompactBelow | internal/crypto/target.go:23-48 | every encoding decodes below 2^256 |
| Target.EncodeThenDecode | internal/crypto/target.go:23-81 | decoding after encoding truncates to the leading bytes and nothing else |
| Target.RoundTripError | internal/crypto/target.go:23-81 | the round trip is at most the target, with an error below 2^-15 of it |
| Target.RoundTripMonotone | internal/crypto/target.go:23-81 | the round trip is monotone |
| Target.RoundTripIdempotent | internal/crypto/target.go:23-81 | the round trip is idempotent |
| Target.KnownTargets | internal/crypto/target.go:23-48 | encodings written out, among them a negative one, one too large and ones whose low bytes are cut off |
| Target.CompactToHash | internal/crypto/target.go:85-97 | the filled bytes stand for the decoded target |
| Target.HashToBig | internal/crypto/target.go:100-107 | the integer the bytes stand for |
| Target.Less | internal/types/hash.go:86-97 | the byte loop is the comparison of the integers |
| Target.LessOrEqual | internal/types/hash.go:100-102 | likewise for at most |
| Target.ValidateProofOfWork | internal/crypto/target.go:124-130 | holds exactly when the hash's integer is at most the decoded target |
| Target.WorkIs | internal/crypto/target.go:111-120 | work is the largest w with w times (target + 1) at most 2^256, and is positive exactly for positive targets |
| Target.WorkAntitone | internal/crypto/target.go:111-120 | lower targets mean at least as much work |
| FeeHeaps.FeeHeap.Push | internal/mempool/mempool.go:605-623 | adds the entry and keeps heap order and back-pointers |
| FeeHeaps.FeeHeap.Pop | internal/mempool/mempool.go:605-632 | removes an entry whose fee rate no other is below, nor at the same rate whose hash |
| FeeHeaps.FeeHeap.RemoveAt | internal/mempool/mempool.go:235-243 | removes exactly the entry at the index and keeps heap order and back-pointers |
| FeeHeaps.FeeHeap.Up | internal/mempool/mempool.go:605-632 | sifting up mends the one edge that may be out of order |
| FeeHeaps.FeeHeap.Down | internal/mempool/mempool.go:605-632 | sifting down mends the edges at one item and reports whether it moved |
| FeeHeaps.FeeHeap.Less | internal/mempool/mempool.go:592-613 | lower fee rate first; at the same rate the lower hash, as an integer |
| FeeHeaps.FirstIsLeast | internal/mempool/mempool.go:605-632 | in heap order the first entry comes before all others |
| Mempools.Mempool.AddTx | internal/mempool/mempool.go:72-190 | takes exactly the admissible transactions; what it evicts pays no higher fee rate than anything it keeps, and at the same rate has the lower hash; nothing is evicted unless without it there was no room; a refused transaction changes nothing |
| Mempools.Mempool.Judge | internal/mempool/mempool.go:72-159 | the admission rule: not coinbase, new, no conflict, valid on the set and unconfirmed parents, enough fee |
| Mempools.Mempool.AdmissibleSpends | internal/mempool/mempool.go:100-146 | each input of an admissible transaction opens, with its script, a mature output of the set, or an output of a pooled transaction that no other pooled one spends |
| Mempools.Mempool.AdmissibleFee | internal/mempool/mempool.go:142-160 | an admissible transaction pays the value of what it spends less its outputs, and at least the minimum fee and the minimum rate for its size |
| Mempools.NoConflicts | internal/mempool/mempool.go:100-108 | no two pooled transactions spend the same outpoint |
| Mempools.Mempool.MakeRoom | internal/mempool/mempool.go:161-169 | evicts from the bottom until both caps leave room, and no more |
| Mempools.Mempool.EvictLowestFeeRate | internal/mempool/mempool.go:251-259 | removes from all indexes an entry of the lowest fee rate, and among these of the lowest hash |
| Mempools.Mempool.RemoveTxUnsafe | internal/mempool/mempool.go:235-249 | removes one transaction from all indexes, with or without its heap entry |
| Mempools.Mempool.RemoveTxs | internal/mempool/mempool.go:227-233 | removes exactly the listed transactions |
| Mempools.Mempool.ExpireOldTxs | internal/mempool/mempool.go:407-427 | removes exactly what was added before the cutoff and counts it |
| Mempools.Mempool.BlockTemplate | internal/mempool/mempool.go:283-320 | all entries by descending fee rate and, at the same rate, ascending hash, with their true fee sum, cut where the sum would wrap |
| Mempools.PoolRemove | internal/mempool/mempool.go:235-249 | removal keeps the conflict index exact and the byte counter equal to the sum of sizes |
| Mempools.PoolAdd | internal/mempool/mempool.go:180-187 | insertion keeps them too |
| Schedulers.BlockScheduler.Populate | internal/p2p/scheduler.go:113-153 | every best-chain hash above the tip is queued, in flight or staged, new entries with their heights, each in one place if the header index is parent-closed (or names no hash twice) |
| Schedulers.BlockScheduler.Reset | internal/p2p/scheduler.go:158-176 | starts over with everything above the tip queued and nothing counted |
| Schedulers.BlockScheduler.AssignWork | internal/p2p/scheduler.go:182-249 | the entries that move into flight are the first of the queue the peer has and that are not in flight, as many as the limits leave room for, in order and each with its height; the rest stays in order; in-flight stays at most 512 and in-flight plus staging below 1536; if every counter tells its peer's requests, this stays so and no peer has more than sixteen; no hash is lost or doubled |
| Schedulers.AskLess | internal/p2p/scheduler.go:268-285 | a delivery keeps the counters right exactly if the delivering peer is the one that was asked |
| Overload.SeventeenRequests | internal/p2p/scheduler.go:268-285 | a run in which a peer delivers a block another was asked for, and then has seventeen requests at a time |
| Overload.Deliveries | internal/p2p/scheduler.go:255-300 | no run of deliveries stages more than was in flight and staged before |
| Overload.StageAll | internal/p2p/scheduler.go:255-300 | if all that is in flight is delivered, exactly that much is staged in the end |
| Overload.FullStaging | internal/p2p/scheduler.go:193-195 | a run of requests and deliveries to 1040 staged blocks, above the limit of 1024 |
| Schedulers.ClosedDistinct | internal/chain/headers.go:252-269 | the best chain of a parent-closed header index repeats no hash |
| Schedulers.BlockScheduler.MoveToFlight | internal/p2p/scheduler.go:209-235 | the scan takes every suitable entry until the limit |
| Schedulers.BlockScheduler.BlockReceived | internal/p2p/scheduler.go:255-300 | an expected block with the right header is staged, one with another header is queued again, others are ignored; the counters stay right exactly if nothing was expected or the peer was the one asked |
| Schedulers.BlockScheduler.DrainReady | internal/p2p/scheduler.go:305-364 | yields the staged blocks of consecutive best-chain heights with matching headers, up to the first that is not staged; if more than 512 others are staged then, all of these go back to the queue, and nothing else changes |
| Schedulers.BlockScheduler.FlushStaging | internal/p2p/scheduler.go:331-344 | puts all staged hashes back into the queue, each once, without their heights |
| Schedulers.BlockScheduler.RequeueBlock | internal/p2p/scheduler.go:368-377 | queues a block again; every target stays in exactly one place exactly if it was neither queued nor in flight, in particular if it was drained |
| Schedulers.BlockScheduler.HandleTimeout | internal/p2p/scheduler.go:381-412 | moves exactly the timed-out requests back to the queue, each once and with its height, and returns them |
| Schedulers.BlockScheduler.RemovePeer | internal/p2p/scheduler.go:416-435 | moves exactly the peer's requests back to the queue, each once and with its height |
| Schedulers.BlockScheduler.IsComplete | internal/p2p/scheduler.go:470-480 | complete means every target was drained |
| Schedulers.BlockScheduler.UpdateNextConnectHeight | internal/p2p/scheduler.go:517-528 | the next height only moves up, past the connected one |
| Codec.VarIntParses | internal/types/transaction.go:66-135 | parsing a printed varint gives the value and the rest |
| Codec.VarIntPrints | internal/types/transaction.go:96-135 | bytes that parse are the one minimal encoding |
| Layout.VarIntLayout | internal/types/transaction.go:66-92 | one byte, or a marker and the value in two, four or eight bytes |
| Codec.InputParses | internal/types/transaction.go:250-268 | an input survives printing and parsing |
| Codec.InputPrints | internal/types/transaction.go:339-366 | input bytes that parse are the printing of the input |
| Layout.InputLayout | internal/types/transaction.go:250-268 | outpoint, script length, script and sequence at their offsets |
| Codec.OutputParses | internal/types/transaction.go:271-282 | an output survives printing and parsing |
| Codec.OutputPrints | internal/types/transaction.go:369-386 | output bytes that parse are the printing of the output |
| Layout.OutputLayout | internal/types/transaction.go:271-282 | value, script length and script at their offsets |
| Codec.TxParses | internal/types/transaction.go:218-336 | parse(print(tx) ++ rest) = (tx, rest) for every transaction within the limits |
| Codec.TxPrints | internal/types/transaction.go:295-336 | bytes that parse as a transaction are its serialization and within the limits |
| Layout.TxLayout | internal/types/transaction.go:218-247 | version first, then the count of inputs, behind the inputs the count of outputs, lock time last |
| Layout.InputAt | internal/types/transaction.go:218-247 | input k stands behind those before it |
| Layout.OutputAt | internal/types/transaction.go:218-247 | output k stands behind the inputs and the outputs before it |
| Codec.TxInjective | internal/types/transaction.go:218-247 | serialization is injective and prefix-free |
| Codec.TxLength | internal/types/transaction.go:191-215 | SerializeSize is the exact length |
| Codec.HeaderParses | internal/types/block.go:31-76 | a header survives its 80 bytes |
| Codec.HeaderPrints | internal/types/block.go:64-76 | 80 bytes are the printing of the header read from them |
| Layout.HeaderLayout | internal/types/block.go:54-61 | the fields of a header at their fixed offsets, integers lowest byte first |
| Codec.BlockParses | internal/types/block.go:85-128 | parse(print(block) ++ rest) = (block, rest) within the limits |
| Codec.BlockPrints | internal/types/block.go:110-128 | bytes that parse as a block are its serialization |
| Layout.BlockLayout | internal/types/block.go:85-98 | header first, then the count of transactions, then the transactions in order |
| Codec.BlockInjective | internal/types/block.go:85-98 | block serialization is injective and prefix-free |
| Codec.BlockLength | internal/consensus/validation.go:96-106 | the size the block rule limits is the exact length |
| Codec.GetHeadersParses | internal/protocol/messages.go:145-186 | a locator message of at most 500 hashes survives |
| Codec.GetHeadersPrints | internal/protocol/messages.go:163-186 | bytes that parse are its encoding |
| Layout.GetHeadersLayout | internal/protocol/messages.go:145-160 | version, count, hashes in order and the stop hash at their offsets |
| Codec.HeadersParse | internal/protocol/messages.go:190-227 | a headers message of at most 2000 headers survives |
| Codec.HeadersPrint | internal/protocol/messages.go:205-227 | bytes that parse are its encoding; a non-zero transaction count is refused |
| Wire.Reader.ReadVarInt | internal/types/transaction.go:96-135 | the reader consumes exactly what the parser does |
| Wire.Reader.ReadInput | internal/types/transaction.go:339-366 | likewise for inputs |
| Wire.Reader.ReadOutput | internal/types/transaction.go:369-386 | likewise for outputs |
| Wire.Reader.ReadTx | internal/types/transaction.go:295-336 | likewise for transactions |
| Wire.Reader.ReadHeader | internal/types/block.go:64-76 | likewise for headers |
| Wire.Reader.ReadBlock | internal/types/block.go:110-128 | likewise for blocks |
| Wire.Reader.ReadGetHeaders | internal/protocol/messages.go:163-186 | likewise for locator messages |
| Wire.Reader.ReadHeaders | internal/protocol/messages.go:205-227 | likewise for headers messages |
| Wire.SliceWriter.WriteVarInt | internal/types/transaction.go:66-92 | appends exactly the printed varint |
| Wire.SliceWriter.WriteTx | internal/types/transaction.go:218-247 | appends exactly the printed transaction |
| Wire.SliceWriter.WriteBlock | internal/types/block.go:85-98 | appends exactly the printed block |
| Wire.SerializeInto | internal/types/block.go:54-61 | fills the first 80 bytes of the buffer with the header and leaves the rest alone |
| UndoCodec.EntryParses | internal/utxo/utxo.go:28-65 | a UTXO entry survives the disk |
| Layout.EntryLayout | internal/utxo/utxo.go:28-41 | value, height, flag, script length and script of an entry at their offsets |
| Layout.SpentLayout | internal/utxo/utxo.go:89-110 | a spent output in the undo data: its key, the length of its entry, the entry |
| UndoCodec.SerializeUndoData | internal/utxo/utxo.go:89-110 | the loop writes the printed undo data |
| UndoCodec.DeserializeUndoData | internal/utxo/utxo.go:113-150 | the offset loop reads what the parser reads |
| UndoCodec.UndoRoundTrip | internal/utxo/utxo.go:89-150 | undo data survives the disk |
| UndoCodec.DisconnectFromDisk | internal/utxo/utxo.go:89-371 | disconnecting with undo data read back from disk restores the exact prior set |
| UndoCodec.KeysDiffer | internal/utxo/utxo.go:69-74 | 36-byte keys stand for outpoints one to one |
| Layout.KeyLayout | internal/utxo/utxo.go:69-74 | the id, then the index |
| UndoCodec.DigestIds | internal/types/transaction.go:285-292 | if the digest has no collision on the serializations at hand, no two transactions share an id |
| CoinSelection.SelectCoins | internal/wallet/txbuilder.go:171-192 | on all inputs, takes the shortest prefix that passes the test in 64 bits, and fails only if none does |
| CoinSelection.FitsPays | internal/wallet/txbuilder.go:171-192 | where all sums fit in 64 bits the test is the one over true integers |
| CoinSelection.SelectionIsOptimal | internal/wallet/txbuilder.go:171-192 | if any choice of coins pays, the prefix of as many largest coins pays |
| CoinSelection.LargestFirst | internal/wallet/txbuilder.go:74-77 | no choice of k coins is worth more than the k largest |
| CoinSelection.FilterSpendable | internal/wallet/txbuilder.go:194-212 | keeps exactly the confirmed and mature coins; the next block can spend each of them |
| CoinSelection.FinishPayment | internal/wallet/txbuilder.go:91-151 | on all inputs: when a payment is built, and that its outputs are exactly the amount under the payee's script, or that and the change under the change script; whether there is change and how much; that the outputs are within what the inputs are worth exactly if these are worth the amount and the fee with change, or without change the amount; where all sums fit the fee covers the estimate and exceeds it by at most the dust threshold plus one output's cost |
| CoinSelection.BuildPayment | internal/wallet/txbuilder.go:40-151 | on all inputs the chosen prefix decides whether a payment is built; its outputs are exactly the amount under the payee's script, or that and the change under the change script, and are within what its inputs are worth exactly under that condition; for sums that fit in 64 bits a payment is built exactly when some choice of coins pays with two outputs, with the fewest inputs possible, the change is what the inputs are worth less the amount and the fee with two outputs, and it is well paid; the next block can spend every coin it chooses from |
| CoinSelection.RefusedThoughPaid | internal/wallet/txbuilder.go:171-192 | a coin that pays the amount and the fee of one output, on which no payment is built |
| CoinSelection.WrappedPayment | internal/wallet/txbuilder.go:171-192 | an amount that wraps with the fee, on which a payment is built that spends more than its inputs |

## Left out

- The deferred-sync path of initial block download.
- Safety.Run: crashes in the commit phase of a reorganisation are no events of a run, because the node that comes up need not be consistent; SwitchCrash.CrashInSwitch says what comes up, for reorganisations started by an incoming block.
- Failing writes of the tip record and of the commit phase of a reorganisation, and the ignored index-write errors of waiting blocks off the tip: the code does not roll these back, so they are taken to succeed.
- The byte layout and files of the store: records are maps, and a block and its undo data stand for their file positions; the codecs justify reading them back unchanged.
- 32-bit wrap-around of heights and of output indexes at creation: both are natural numbers in the chain model; the locator step, the reorganisation depth sums, the transaction count and block size checks and the confirmation count do wrap as in the code.
- A script length or undo length of 2^63 or more in stored data, where the code's conversion to a signed integer would differ from the model.
- Error texts, log lines and metrics; an error is a refusal.
- The optional caches of transaction ids and of the serialized block that validation accepts.
- CalcTxFee, TotalFees, TotalSize, GetTxHashes and the mempool dump and load: plain accessors and file handling beside the modelled state.
- AddHeaders, the batch loop over AddHeader, and the misbehaviour and throttling rules around headers messages.
- Latency statistics and peer scoring of the scheduler.
- Validity of a block template as a whole: templates are ordered by fee rate only, and eviction may remove a parent.
- CoinSelection.BuildPayment: address decoding, change address derivation and signing are not modelled; the two scripts are inputs.
- The proof-of-work engine, difficulty retargeting and hash algorithms, ECDSA, the script interpreter, Base58 and key derivation.
- The remaining peer-to-peer manager, RPC, command line, user interfaces, configuration, migration and the benchmark programs.
- Locks and interleavings: each public method runs under one lock and is one step here.

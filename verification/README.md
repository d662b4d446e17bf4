# A verified model of the node's core

The repository is a Bitcoin 0.8 derived node.  This project models five of its components in Dafny and proves what they
are for:

1. **Chain state and unspent outputs.**  `Coins`, `Ledger`, `LedgerInverse`, `Rewind`, `Overwrite`, `Wear`, `Supply` and
   `LedgerRuns` specify spending, connecting and disconnecting on one flat set of unspent outputs, in which an absent
   transaction id and a fully spent entry mean the same, and what storing coins and undo data does to them.  `Textbook` says
   the rules once more, on a map from single outputs, and proves the two equivalent.  `CoinsView` and `BlockConnection`
   are the caches over the database and the operations on them, proved to refine the flat set.  `BlockTree`, `ChainTree`,
   `ChainSwitch` and `ChainState` are the block index, reorganisation and the choice of the best chain.  `MemPool`,
   `TxMemPool`, `PoolReorg`, `PoolOutcome` and `PoolOrphan` are the memory pool, `Template`, `TemplateQueue`,
   `TemplateTurns` and `BlockTemplate` the block template builder.
2. **Parallel check queue.**  `CheckQueue` holds the critical sections, `CheckQueueRuns` all interleavings of them, and
   `CheckQueueQuit` the shutdown.
3. **Address manager.**  `AddrTables` holds the invariant, `AddrMan` the operations, `AddrCheck` the consistency check,
   `AddrDisk`, `AddrRoundTrip` and `AddrRebuild` the stored form.
4. **Merkle trees.**  `Merkle`, `PartialMerkle`, `PartialMerkleProof` and `PartialMerkleTree`.
5. **Codecs and arithmetic.**  `Codec`, `Amounts`, `ScriptCodec`, `CoinsCodec`, `CoinsStream`, `StoredExamples`, `Compact`,
   `Retarget` and `MedianTime`.

Main results: a block connects if and only if it keeps the rules output by output (`Textbook.ConnectsIff`), so that every
spend of every chain is legal (`Textbook.EverySpendIsLegal`); disconnecting undoes connecting, in memory always
(`LedgerInverse.DisconnectUndoesConnect`), through storage exactly without negative versions (`Wear.StoredBlockIsUndone`),
and is clean for exactly the sets and undo data that a block leaves (`Rewind.DisconnectsIff`); conservation of value over every run
(`LedgerRuns.SupplyOverRuns`); safety of every reorganisation (`ChainState.Chain.SetBestChain`,
`ChainState.Chain.ConnectBestBlock`); the verdict of the check queue in every interleaving
(`CheckQueueRuns.WaitReturnsConjunction`) and when its shutdown may hang (`CheckQueueQuit.QuitMayHangIff`); the address
manager's invariant under every operation and its round trip through storage (`AddrRoundTrip.RoundTrip`); round trip and
soundness of partial Merkle trees (`PartialMerkle.RoundTrip`, `PartialMerkle.Soundness`); exact descendants in the memory
pool (`TxMemPool.Pool.Remove`) and when it stays spendable through a reorganisation
(`PoolOutcome.FollowReorg`); templates that connect, what is in them and why, and when making them goes wrong (`Template.TemplateConnects`,
`TemplateTurns.TakenIff`, `BlockTemplate.CreateNewBlock`); which target a block needs and bounds on targets along every chain
(`Retarget.NextTargetIs`, `Retarget.TargetsWithinLimits`).

Assumptions, all of them visible as parameters or preconditions: hashes identify what they hash (`TxMemPool.World`, pair
hashes where soundness needs it), transaction ids are acyclic (`MemPool.Rank`), scripts and public keys are arbitrary
predicates and functions, random numbers, clocks, bucket hashes, disk failures, requests to stop and the verdicts of checks
outside the model are arbitrary values, and COIN is 10^8.

## Where the code does not do what one would expect

Each of these is stated with an input on which the code does not meet the property, and with the exact condition under which
it does.

- Negative versions.  A variable-length integer keeps seven bits of a negative number, undo data always and coins usually
  come back from disk, and CheckTransaction accepts any version.  So the outputs of a block with a negative version do not
  match any more once its coins have been to disk, and DisconnectBlock refuses it: `Wear.NegativeVersionIsStuck`,
  `LedgerRuns.StuckRun`.  The condition is that no transaction of the block has a negative version, or, while
  coins are only in memory, none whose version has changed: `CoinsCodec.CoinsRoundTrip` and `CoinsCodec.UndoRoundTrip` for the
  records, `Wear.StoredBlockIsUndone` and `Wear.WornDisconnect` for a block, `LedgerRuns.DisconnectIsClean` for a run,
  `ChainState.Chain.SetBestChain` for a reorganisation.
- Overwriting.  Without the rule of BIP 30 a transaction can take the id of an entry with something unspent, and
  disconnecting its block does not bring that back: `Overwrite.OverwriteIsNotUndone`, and `Overwrite.UndoneIffOverwriteFree`
  for the condition.
- Flushing.  A flush into another cache replaces that cache's tip even by none: `CoinsView.FlushForgets`, and
  `CoinsView.CoinsViewCache.Flush` for the condition.  SetBestChain sets its tip first and is not affected.
- Shutting down.  Quit may wait for ever when checks are outstanding: `CheckQueueQuit.QuitWithWorkMayHang`,
  `CheckQueueQuit.HangIsKept`, and `CheckQueueQuit.QuitMayHangIff` for the condition.
- Pruned entries.  CCoinsViewMemPool prefers the answer of the chain's cache even when that is a pruned entry.
  DisconnectBlock leaves one for every transaction that it takes off.  SetBestChain flushes the cache before it offers those
  transactions to the pool again, except during the initial download while the cache is below its limit
  (src/main.cpp:1996-2010): `TxMemPool.HiddenExample`, `PoolOutcome.DisconnectedIsHidden`, and
  `TxMemPool.AcceptableBehindCache` for the condition.
- Orphans.  A reorganisation offers coinbases and blocks below the last checkpoint not at all, and other transactions may be
  refused, so that a transaction can stay in the pool without the output that it spends: `PoolOrphan.OrphanedChild`, and
  `PoolOutcome.SpendableIffNoOrphan` for the condition.  It does not ask what the pool was before, because transactions of the
  wallet come into it without a check of their inputs (src/wallet.cpp:825): `TxMemPool.UncheckedIsNotSpendable`.
- Outputs that do not exist.  CreateNewBlock reads the value of every output that a transaction of the pool spends without a
  look at how many there are: `TemplateQueue.OverrunByPosition` for an unchecked transaction,
  `TemplateQueue.OverrunByPrunedEntry` for a checked one, and `TemplateQueue.Collect` for the condition; in a spendable pool it
  takes a pruned entry under a parent in the pool (`TemplateQueue.SpendableOverruns`).
- Freed records.  A transaction with a missing input is taken out of vOrphan but not out of mapDependers, so that selecting a
  parent follows a dangling reference: `TemplateQueue.TornPool`, `TemplateQueue.FreedIffTorn` and, for one parent,
  `TemplateQueue.NamesFreedMeans` for the condition.  A spendable pool has no such transaction
  (`TemplateQueue.SpendableIsNotTorn`), and it stays spendable while the chain grows (`PoolReorg.BlockKeepsPoolSpendable`).
  Nothing is promised of what the original does after either kind of read.
- Crowded buckets.  An address file written with another number of new buckets can put more than 64 entries into one:
  `AddrRebuild.CrowdedBucket`, `AddrRebuild.TooManyEntries`, and `AddrRebuild.RebuiltIsConsistentIff` for the condition.
- Documented integers.  The comment at src/serialize.h:253-257 gives encodings of 16511 and 65535 that the code does not
  write; they also contradict the sum and the sizes in the same comment, which the code does keep:
  `StoredExamples.DocumentedNumbers`, `StoredExamples.EncodingIff`, `StoredExamples.DocumentedSizes`.
- Unlisted addresses.  Check_ looks addresses up with an operator that makes an entry with 0 for unknown ones, so that it does
  not miss the address of id 0: `AddrCheck.UnlistedPasses`, and `AddrCheck.ConsistentIff` for all that Check_ does not see.
- Flag bits.  The comment at src/main.h:1194 limits the flag bits to 2N - 1, which nodes with one child exceed:
  `PartialMerkle.FlagBitLimitExceeded`, and `PartialMerkle.FlagBitLimit` for the condition.

## Model

| member | source | states |
|---|---|---|
| `Coins.Trim` | src/main.h:908-913 | the longest prefix of the outputs that does not end in a spent one; everything cut off was spent |
| `Coins.Cleanup` | src/main.h:908-913 | the loop that pops spent outputs off the end computes that prefix and touches nothing else |
| `Coins.SpendInPlace` | src/main.h:1045-1059 | the spend as it runs equals the specified spend, including both refusals and the metadata recorded only with the last output |
| `Coins.SpendEffect` | src/main.h:1045-1059 | a spend removes exactly one output, keeps all others and the metadata, hands back the removed output and keeps the stored form |
| `Coins.GrowUndoesTrim` | src/main.cpp:1698-1700 | growing the trimmed outputs again and writing the spent one back restores the outputs |
| `Coins.RestoreUndoesSpend` | src/main.cpp:1680-1702 | restoring from the undo record gives back the coins and reports clean, whether the entry was kept, pruned or erased in between |
| `LedgerInverse.SpendInputsEffect` | src/main.cpp:1510-1526 | spending a list of inputs takes away exactly the outputs in the list, adds no entry and leaves every other output as it was |
| `LedgerInverse.AvailableInputsCanBeSpent` | src/main.cpp:1510-1526 | the assertion in UpdateCoins cannot fire: distinct available inputs can all be spent |
| `LedgerInverse.RestoreInputsUndoesSpendInputs` | src/main.cpp:1676-1704 | restoring inputs last to first gives back the set before the spends and finds nothing amiss |
| `LedgerInverse.ConnectTxsEffect` | src/main.cpp:1816-1856 | every prefix of a block leaves a well-formed set with entries only from before or from the block, and one undo record per spending transaction |
| `LedgerInverse.NoOverwriteThroughout` | src/main.cpp:1787-1796 | the rule of BIP 30, checked once up front, holds for every transaction at its own turn |
| `LedgerInverse.DisconnectTxsUndoesConnectTxs` | src/main.cpp:1636-1716 | disconnecting any prefix of a block, spends inside the block included, restores the set before it |
| `LedgerInverse.DisconnectUndoesConnect` | src/main.cpp:1636-1716 | for every set and every block that passes its checks and connects, disconnecting with coins and undo data as they are in memory restores the same set and reports clean |
| `Rewind.RestoresIffSpends` | src/main.cpp:1676-1704 | for any set and any records: restoring the inputs of a transaction gives a set without complaint if and only if spending them from that set gives the first set and exactly these records |
| `Rewind.ApplyUndoesDisconnect` | src/main.cpp:1636-1716 | whatever set and undo data a clean disconnection started from, the transactions of the block, applied to what it leads to, give back exactly that set and that data: nothing is forgotten |
| `Rewind.DisconnectUndoesApply` | src/main.cpp:1636-1716 | and what transactions made of a set under free ids, whether or not a block with them would be accepted, is disconnected cleanly to that set |
| `Rewind.DisconnectsIff` | src/main.cpp:1636-1716 | the exact condition, for any set and any undo data: disconnecting a block is clean and leads to a set if and only if the transactions of the block lead from there to the set and leave that data |
| `Textbook.SpentOutputs` | src/main.cpp:1510-1526 | on a map from single outputs to what they pay and where they come from: spending takes the outputs in the list off it and leaves every other one with value, script, origin and height as it was |
| `Textbook.TxIff` | src/main.cpp:1816-1856 | one transaction on coin records and on that map: the same verdict, fee, signature operations and effect |
| `Textbook.ConnectsIff` | src/main.cpp:1756-1866 | a block that passes its own checks connects if and only if, on the map of single outputs, no id of it is in use (under BIP 30), every input of every transaction at its turn is there, in range and, if from a coinbase, a hundred blocks old, every partial sum is money, no transaction pays more than it spends, every single script verifies, all signature operations together are at most 20000, and the coinbase pays at most 20 coins halved every 1050000 blocks plus the fees; and the map changes by exactly what the transactions take and make |
| `Textbook.ConnectedIsChecked` | src/main.cpp:1561-1628 | in a connected block every input of every transaction but the coinbase takes an output unspent at its turn, mature, with its own script verified, for no less than the transaction pays |
| `Textbook.UncheckedIsRefused` | src/main.cpp:1561-1628 | a block in which one of these things fails for one input is refused |
| `Textbook.EveryOutputHasOrigin` | src/main.cpp:1756-1890 | along every chain that connects: an unspent output was made by a transaction of it, with this value and script, and its record says truly whether that was a coinbase and in which block |
| `Textbook.EverySpendIsLegal` | src/main.cpp:1756-1890 | along every chain that connects: what any input spends was made by an earlier transaction, at least a hundred blocks before if by a coinbase, and its script agreed |
| `Wear.WornConnectBlock` | src/main.cpp:1756-1890 | coins and undo data that went through storage any number of times keep everything but a negative version: a block connects to the stored set if and only if it connects to the original one, and leads to sets and records that are again alike |
| `Wear.WornDisconnect` | src/main.cpp:1636-1716 | disconnecting with stored coins and stored undo data leads to the set before, up to negative versions, and is clean if and only if every transaction of the block with a negative version still has that version in the set |
| `Wear.StoredBlockIsUndone` | src/main.cpp:1647-1716 | the exact condition: with undo data read back from disk and coins flushed to disk, disconnecting is clean and restores the set if and only if no transaction of the block has a negative version |
| `Wear.NegativeVersionIsStuck` | src/main.cpp:1667-1669 | an input: a block with one coinbase of version -1 connects, and disconnecting it is not clean |
| `Overwrite.OverwriteFreeMeans` | src/main.cpp:1787-1796 | overwriting nothing means: every id of the block has no output unspent in the set before but those that earlier transactions of the block spend |
| `Overwrite.UndoneIffOverwriteFree` | src/main.cpp:1787-1796 | the exact condition without the rule of BIP 30: a connected block whose transactions do not spend themselves is undone cleanly to the same set if and only if every id was free in that sense |
| `Overwrite.OverwriteIsNotUndone` | src/main.cpp:1787-1796 | an input: with that rule off, a coinbase under the id of an unspent one, whose block disconnects "cleanly" to a set without the older coin |
| `Supply.SpendInputsTotal` | src/main.cpp:1510-1526 | spending takes exactly the value of the inputs out of the set |
| `Supply.ConnectTxsTotal` | src/main.cpp:1816-1856 | value of the set plus fees never exceeds what was there plus the coinbase, with equality when nothing is overwritten |
| `Supply.ConnectBlockTotal` | src/main.cpp:1861-1862 | a connected block raises the value of the set by at most its subsidy |
| `Supply.IssuedBelowMaxMoney` | src/main.cpp:1058-1066 | the sum of all subsidies up to any height (shift below 64) is below MAX_MONEY |
| `Supply.SubsidyHalves` | src/main.cpp:1058-1066 | the first 1050000 heights pay 20 coins, and each height half of what the height 1050000 below pays, rounded down |
| `Supply.FeesDoNotOverflow` | src/main.cpp:1840-1840 | the running fee sum stays within twice the money range at every step, also before the fee is checked, so 64 bits suffice |
| `LedgerRuns.RunsAreConsistent` | src/main.cpp:1756-1890 | over every sequence of connects, disconnects and trips to disk from genesis the set is, up to negative versions, the replay of the chain now connected, and every stored undo record is the one of that replay as it is read back |
| `LedgerRuns.DisconnectIsClean` | src/main.cpp:1706-1716 | in every such state a disconnection removes the last block if and only if each of its transactions with a negative version still has that version in the set (once the coins have been to disk: if it has none), and otherwise changes nothing |
| `LedgerRuns.StuckRun` | src/main.cpp:1667-1669 | a run after which the tip cannot be disconnected |
| `LedgerRuns.SupplyOverRuns` | src/main.cpp:1058-1066 | over every run total unspent value stays between 0 and the subsidies up to the tip, below MAX_MONEY; without negative versions the set is exactly that of the chain now connected |
| `CoinsView.CoinsViewDB.BatchWrite` | src/txdb.cpp:55-65 | writing a batch overlays it in its stored form on the stored set, pruned entries being erased, or changes nothing when the disk fails |
| `CoinsView.OverlayStored` | src/txdb.cpp:11-16 | storing changes nothing but negative versions, and nothing at all if and only if no entry written has one |
| `CoinsView.BuildBatch` | src/txdb.cpp:11-16 | the loop that fills the batch writes entries with something unspent and erases the others |
| `CoinsView.CoinsViewCache.GetCoins` | src/main.cpp:191-219 | a read answers from the flat set (pruned and absent meaning the same) and changes the meaning of no layer of the stack |
| `CoinsView.CoinsViewCache.HaveCoins` | src/main.cpp:226-228 | true also for a cached pruned entry; no layer changes its meaning |
| `CoinsView.CoinsViewCache.SetCoins` | src/main.cpp:221-224 | the flat set changes at exactly one transaction id |
| `CoinsView.CoinsViewCache.GetBestBlock` | src/main.cpp:230-234 | the best block of the nearest layer that knows one, and no layer changes its meaning |
| `CoinsView.CoinsViewCache.BatchWrite` | src/main.cpp:241-246 | a batch from above overlays the flat set; the tip is replaced, also by none |
| `CoinsView.CoinsViewCache.Flush` | src/main.cpp:248-253 | the flat set moves down; onto disk it stays the same if and only if no cached entry with something unspent has a negative version; the best block survives if and only if the view knows its tip, or writes to the database, or the layer below had none of its own |
| `CoinsView.FlushForgets` | src/main.cpp:241-253 | an input: two caches over one database, of which the lower one forgets its best block |
| `BlockConnection.HaveInputs` | src/main.cpp:1528-1559 | the two loops over a layered view decide availability in its flat set |
| `BlockConnection.GetValueIn` | src/main.cpp:1483-1493 | the sum over a layered view is the sum in its flat set |
| `BlockConnection.CheckInputAmounts` | src/main.cpp:1561-1605 | maturity, range of every partial sum and the fee are checked exactly as specified on the flat set |
| `BlockConnection.ScriptChecks` | src/main.cpp:1614-1631 | the collected checks all pass if and only if every script verifies |
| `BlockConnection.UpdateCoins` | src/main.cpp:1510-1526 | on a layered view: the specified spends and the new entry, undo records in input order, layers below untouched |
| `BlockConnection.ConnectTxs` | src/main.cpp:1816-1856 | the loop over the transactions refines the specification on the flat set, with or without the check queue |
| `BlockConnection.ConnectBlock` | src/main.cpp:1756-1907 | the verdict is exactly what the outside checks, the rules and the disk say, in this order; a good one means that the flat set is the specified one and undo data are kept as they are read back; the layers below are untouched |
| `BlockConnection.RestoreInputs` | src/main.cpp:1676-1704 | restoring on a layered view refines the specification, cleanliness included |
| `BlockConnection.DisconnectTxs` | src/main.cpp:1655-1705 | the loop from last to first transaction refines the specification |
| `BlockConnection.DisconnectBlock` | src/main.cpp:1636-1716 | disconnecting on a layered view refines the specification, makes the parent the best block of the view, and leaves pruned entries for the transactions of the block in the cache |
| `BlockTree.PathPrefix` | src/main.h:1743-1746 | the path of an ancestor is a prefix of the path of its descendants |
| `BlockTree.WorkGrows` | src/main.h:1734-1741 | along every path accumulated work strictly increases |
| `ChainTree.FindFork` | src/main.cpp:1915-1928 | the walk from both tips finds the last common ancestor of two blocks |
| `ChainTree.Downward` | src/main.cpp:1930-1939 | the walk down from a tip lists exactly the blocks above the fork |
| `ChainTree.StateOfParent` | src/main.cpp:1946-1957 | disconnecting the last block of a path with its own undo data gives the state of the parent path |
| `ChainTree.WornStateOfParent` | src/main.cpp:1946-1957 | the same from coins and records that were stored, with the exact condition on versions |
| `ChainSwitch.Plan` | src/main.cpp:1915-1939 | fork, blocks to disconnect and blocks to connect are exactly the two branches above the last common ancestor |
| `ChainSwitch.DisconnectOne` | src/main.cpp:1950-1952 | one block comes off the view if and only if block and undo data can be read and every transaction with a negative version still has that version |
| `ChainSwitch.DisconnectBranch` | src/main.cpp:1946-1964 | the old branch comes off down to the fork if and only if the disk answers for all of it and every transaction of it with a negative version has that version in the view and shares its id with none above it |
| `ChainSwitch.ConnectOne` | src/main.cpp:1971-1979 | what becomes of a block on top of its parent is exactly what disk, outside checks and rules decide |
| `ChainSwitch.ConnectBranch` | src/main.cpp:1966-1986 | the new branch goes on up to the new tip if and only if every block passes; otherwise it stops at the lowest one that does not, for the reason that this one has |
| `ChainSwitch.Relink` | src/main.cpp:2015-2023 | after unlinking and relinking, pnext links exactly the new active chain |
| `ChainState.Chain.MainChainIsBestPath` | src/main.h:1743-1746 | in every sound state, IsInMainChain holds if and only if the block is an ancestor of the best block |
| `ChainState.Chain.FindBlockByHeight` | src/main.cpp:1024-1039 | with its remembered start it returns the one active block at any height up to the best |
| `ChainState.Chain.ReversibleIsBranch` | src/main.cpp:1930-1939 | whether the old branch can be taken off can be read off before the call, from the coins and the blocks on the old path and off the new one |
| `ChainState.Chain.ReversibleWhenStored` | src/main.cpp:1993-2010 | once the coins have been to disk, this means that those blocks have no transaction with a negative version |
| `ChainState.Chain.SetBestChain` | src/main.cpp:1909-2084 | switches if and only if the disk answers for every block, the old branch can be taken off, every block of the new one passes and connects, and the last write succeeds; otherwise tip, links and, unless only that write failed, coins are as before; a switch that writes leaves nothing unwritten, the database agreeing with tip and coins, and otherwise the database does not change; exactly the lowest block of the new branch that breaks a rule is marked failed; with the old branch off, a refusal stops the node if and only if the lowest block that does not connect cannot be read or its error says so |
| `ChainState.Chain.AcceptsKept` | src/main.cpp:1909-1986 | a switch that was refused would be refused again |
| `ChainState.Chain.MostWork` | src/main.h:1802-1813 | the greatest candidate: most work, smallest hash among equals |
| `ChainState.Chain.CheckAncestry` | src/main.cpp:1418-1453 | either a failed ancestor is found, or the blocks to attach are listed with increasing work up to the candidate |
| `ChainState.Chain.MarkDescendants` | src/main.cpp:1422-1433 | exactly the blocks above the failed one on the way to the candidate are marked; the candidates remain the blocks not marked, and every mark remains justified |
| `ChainState.Chain.ConnectBestBlock` | src/main.cpp:1404-1455 | always returns; true, without a request to stop, means that no block of the index that is not marked failed has more work than the best block; false means that some switch to a block with more work is obstructed by disk, rules or versions; only blocks that break a rule, and blocks above those, are ever marked |
| `ChainState.Chain.AddToBlockIndex` | src/main.cpp:2087-2125 | a new entry, whose work is that of its parent and 2^256 over its target plus one, rounded down, keeps the invariant (candidates are the blocks not marked failed, marks are justified, pnext exact, coins those of the tip), and the best block is again one of most work among all blocks not marked |
| `CheckQueue.BatchSize` | src/checkqueue.h:101-106 | the share of the queue that falls to one of all threads and idle ones once more, rounded down, but at least one and at most the configured size |
| `CheckQueue.RunBatch` | src/checkqueue.h:117-121 | skipping after a failure still computes the conjunction |
| `CheckQueue.Queue.SettleNow` | src/checkqueue.h:84-116 | return, wait or take a batch, as the transition system specifies |
| `CheckQueue.Queue.EnterLoop` | src/checkqueue.h:81-83 | a thread that comes in is counted and goes on as specified |
| `CheckQueue.Queue.WakeUp` | src/checkqueue.h:97-99 | a thread that wakes up is no longer idle and goes on as specified |
| `CheckQueue.Queue.FinishBatch` | src/checkqueue.h:73-80 | handing in a batch and whether the master is notified |
| `CheckQueue.Queue.Add` | src/checkqueue.h:141-152 | checks are queued in order and counted |
| `CheckQueueRuns.StepKeeps` | src/checkqueue.h:64-123 | every critical section of any thread keeps the invariant of the queue |
| `CheckQueueRuns.ReachedOk` | src/checkqueue.h:64-165 | so the invariant holds after every interleaving of one master and any number of workers |
| `CheckQueueRuns.CountersAreExact` | src/checkqueue.h:50-55 | nTodo is queued plus in flight, and added minus done |
| `CheckQueueRuns.AddWakes` | src/checkqueue.h:141-152 | one new check notifies exactly one of the workers that wait, if any does, more than one notify all of them, and nobody else is touched |
| `CheckQueueRuns.WaitReturnsConjunction` | src/checkqueue.h:136-138 | whenever Wait returns, it returns whether all checks added since the last return pass |
| `CheckQueueRuns.MasterIsNeverStuck` | src/checkqueue.h:64-123 | a sleeping master that was not notified has a worker in flight, a notified one returns as soon as it wakes |
| `CheckQueueRuns.HandInsMakeProgress` | src/checkqueue.h:73-80 | while the master waits no step adds work and every hand-in takes some away |
| `CheckQueueRuns.ControlAssertionsHold` | src/checkqueue.h:182-188 | the assertions of the control object hold: all threads idle, nothing to do, verdict reset |
| `CheckQueueQuit.QuitWhenIdleEnds` | src/checkqueue.h:155-164 | Quit with nothing outstanding leaves every worker inside notified |
| `CheckQueueQuit.ShutDownDrains` | src/checkqueue.h:85-100 | from then on every waking worker leaves for good |
| `CheckQueueQuit.ShutDownIsNotStuck` | src/checkqueue.h:155-164 | as long as threads are inside, one of them can leave |
| `CheckQueueQuit.QuitWithWorkMayHang` | src/checkqueue.h:155-164 | a run of two workers after which Quit waits for a worker that nobody will notify |
| `CheckQueueQuit.HangIsKept` | src/checkqueue.h:64-123 | a state in which Quit hangs stays one under every step except new checks, another Quit and a wake-up that nobody asked for |
| `CheckQueueQuit.QuitMayHangIff` | src/checkqueue.h:155-164 | the exact condition, for every reachable state: after Quit some continuation without new checks ends in such a state if and only if something is outstanding and there are two workers, or one and something still queued |
| `AddrTables.SizeIsBounded` | src/addrman.h:123-141 | never more than 64*64 + 256*64 entries, each once in vRandom |
| `AddrMan.WorthKeeping` | src/addrman.cpp:38-57 | an entry is not terrible if and only if it was tried within the last minute, or was heard of within thirty days, is not from the future, and has not failed too often since it last worked |
| `AddrMan.RefreshedTime` | src/addrman.cpp:326-336 | hearing of a known address again never makes it look older, and moves its time exactly when the news is newer by more than penalty and interval |
| `AddrMan.OddsHalve` | src/addrman.cpp:334-353 | news of a known entry earns it another bucket always, or in one of two, four or eight cases, by the buckets it is in, never in a fifth, never when it is tried and never when the news is not newer |
| `AddrMan.ShuffledReorders` | src/addrman.cpp:500-507 | whatever the dice, the shuffle reorders |
| `AddrMan.EveryOrderIsPossible` | src/addrman.cpp:500-507 | it selects from all: for some dice any entries come first, in any order |
| `AddrMan.Manager.SwapRandom` | src/addrman.cpp:106-124 | two places of vRandom change, and the invariant stays |
| `AddrMan.Manager.Create` | src/addrman.cpp:94-104 | a new entry in mapInfo, mapAddr and at the end of vRandom |
| `AddrMan.Manager.SelectTried` | src/addrman.cpp:126-148 | shuffles exactly the inspected places of the one bucket, and returns the place from which the entry with the longest time since its last success among the inspected ones, the first of those, was drawn |
| `AddrMan.Manager.ShrinkNew` | src/addrman.cpp:150-202 | drops exactly one reference from the bucket: that of the first terrible entry if there is one, and otherwise that of the oldest, the first of those, among the members at four places the dice name; the entry goes with its last reference, and no other changes |
| `AddrMan.Manager.MakeTried` | src/addrman.cpp:204-260 | moves an entry from all its new buckets to its tried bucket; if that is full the least recent of four goes, to its own new bucket if that has room and else to the place the new one came from, and no entry is lost |
| `AddrMan.Manager.FindBucket` | src/addrman.cpp:289-305 | the first bucket with the entry in a round that starts where luck says; there always is one |
| `AddrMan.Manager.Good` | src/addrman.cpp:262-311 | nothing unless the service is known and not tried; otherwise its times are set and its attempts cleared, it moves to its tried bucket by the rules of MakeTried, all others keep their times, no address is forgotten, and the invariant stays |
| `AddrMan.Manager.Add` | src/addrman.cpp:313-369 | a known address is refreshed by the stated rule, and enters another bucket exactly when the news is newer, it is in fewer than four and the dice allow it; an unknown one enters its bucket with exactly the announced data; a full bucket drops what ShrinkNew would, so at most one other entry goes and never a tried one, the others are unchanged, and the invariant, times included, stays |
| `AddrMan.Manager.Attempt` | src/addrman.cpp:371-388 | only the attempt data of the one service change, and the times stay such that Check_ accepts them |
| `AddrMan.Manager.Connected` | src/addrman.cpp:510-528 | only the time of the one service changes, and only after twenty minutes; the times stay such that Check_ accepts them |
| `AddrMan.Manager.GetAddr` | src/addrman.cpp:494-508 | exactly 23 per cent of the known addresses, rounded down, or 2500 if that is less: the first ones of vRandom as the shuffle leaves it, each with its whole entry, no address twice; nothing but the order of vRandom changes |
| `AddrCheck.Check` | src/addrman.cpp:435-491 | on any tables whatever: it finds nothing wrong if and only if all counters agree, every entry has a reference count and times to match and is found under its place and address, the tried buckets hold exactly the tried entries, each once, and each new entry is in as many new buckets as it has references, and nothing else is |
| `AddrCheck.ConsistentIff` | src/addrman.cpp:435-491 | the invariant is this and what Check_ does not look at, no less and no more: ids below the counter, buckets in number and size, the hash of tried entries, and stale or missing addresses; so Check_ accepts every state that the operations reach |
| `AddrCheck.UnlistedPasses` | src/addrman.cpp:457-457 | an input: the entry with id 0 passes although its address is unknown, because looking it up gives 0 |
| `AddrDisk.Read` | src/addrman.h:318-378 | reading computes the specified tables for every well-formed image, also when the number of buckets has changed |
| `AddrRebuild.RebuiltIsConsistentIff` | src/addrman.h:316-378 | when it has changed, the tables read are consistent if and only if no two entries that find room have the same address, no new bucket is chosen by more than 64 entries, and the image names only entries that are there |
| `AddrRebuild.CrowdedBucket` | src/addrman.h:334-338 | an input: an image with 65 new entries, under any hash that sends them to one bucket |
| `AddrRebuild.TooManyEntries` | src/addrman.h:334-338 | and under any hash whatever: an image with more than 256*64 new entries |
| `AddrRoundTrip.Write` | src/addrman.h:279-317 | the image holds the entries in ascending order and the buckets by position |
| `AddrRoundTrip.RoomLeft` | src/addrman.h:341-360 | no tried entry is lost: its bucket still has room when it is read |
| `AddrRoundTrip.RoundTrip` | src/addrman.h:248-380 | reading what was written gives consistent tables with the same entries, new buckets, reference counts and tried buckets under a bijection of ids |
| `AddrRoundTrip.SaveAndLoad` | src/addrman.h:248-380 | the same for two managers, one written and one read, and times that Check_ accepts are accepted after reading |
| `Merkle.WidthIsShift` | src/main.h:1212-1215 | rounding up level by level equals the closed form by shifting |
| `Merkle.NextLevel` | src/main.h:1374-1383 | pairing up a level of the recursive definition gives the next one, odd widths included |
| `Merkle.LevelsAt` | src/main.cpp:2686-2701 | every place of the flat array is the recursive hash of that level and position |
| `Merkle.BuildMerkleTree` | src/main.h:1368-1385 | the flat array is all levels of the recursive definition, and the result is its root, or 0 for no transactions |
| `Merkle.GetMerkleBranch` | src/main.h:1393-1407 | the branch is the siblings on the way up |
| `Merkle.CheckMerkleBranch` | src/main.h:1409-1422 | folds the branch into the leaf, sides chosen by the index; 0 for index -1 |
| `Merkle.BranchFolds` | src/main.h:1409-1422 | folding the first k siblings into a leaf gives its ancestor k levels up |
| `Merkle.BranchProvesInclusion` | src/main.h:1393-1422 | for every block and index, checking the branch recomputes the root |
| `PartialMerkle.ParentOfMatchMeans` | src/main.cpp:2703-2707 | the flag of a node says whether a matched leaf lies below it |
| `PartialMerkle.ExtractReadsBack` | src/main.cpp:2721-2749 | decoding a node reads back its hash and its matches in order, and exactly its bits and hashes |
| `PartialMerkle.HashLimits` | src/main.h:1186-1187 | at most one hash per transaction, and at most 1 + matches * height |
| `PartialMerkle.FlagBitLimit` | src/main.h:1194-1194 | the documented 2N - 1 flag bits hold if and only if no match lies under the last node of a level of odd width |
| `PartialMerkle.FlagBitLimitExceeded` | src/main.h:1194-1194 | the last of five transactions takes five bits for two hashes |
| `PartialMerkle.RoundTrip` | src/main.cpp:2767-2798 | for every block of 1 to 16666 transactions and every mask, extraction from the encoding padded to whole bytes returns the root and exactly the matches, in order |
| `PartialMerkle.ExtractIsSound` | src/main.cpp:2721-2749 | with an injective hash, any bits and hashes that decode to the true hash of a node yield transactions below it at increasing positions |
| `PartialMerkle.Soundness` | src/main.cpp:2767-2798 | so whatever passes every check of ExtractMatches and yields the true root names a subsequence of the block |
| `PartialMerkleProof.ProofIsAccepted` | src/main.cpp:2767-2798 | what flattens a tree of hashes of the shape that the number of transactions allows, padded to whole bytes, is accepted, and its root and matches are those of the tree |
| `PartialMerkleProof.AcceptedIsProof` | src/main.cpp:2767-2798 | nothing else is: a root other than 0 comes from such a tree, and every hash and every bit but the padding was read |
| `PartialMerkleTree.Pack` | src/main.h:1242-1245 | bits to bytes, least significant first, padded with zeroes |
| `PartialMerkleTree.Unpack` | src/main.h:1235-1240 | bytes to bits |
| `PartialMerkleTree.PartialTree.TraverseAndBuild` | src/main.cpp:2703-2719 | the recursion appends exactly the specified bits and hashes |
| `PartialMerkleTree.PartialTree.TraverseAndExtract` | src/main.cpp:2721-2749 | the recursion over the cursors refines the specified decoder, malformed input included |
| `PartialMerkleTree.PartialTree.ExtractMatches` | src/main.cpp:2767-2798 | every refusal and the result, as specified |
| `PartialMerkleTree.Relay` | src/main.h:1229-1257 | build, send, receive and extract: the root and the selected transactions |
| `Codec.WriteVarInt` | src/serialize.h:272-287 | the loops write the specified digits; of a negative number only the lowest seven bits |
| `Codec.ReadVarIntLoop` | src/serialize.h:289-302 | the loop reads as specified, end of stream included |
| `Codec.VarIntReadsBack` | src/serialize.h:272-302 | a number that fits reads back as itself, a negative one modulo 128 |
| `Codec.EncodingIsUnique` | src/serialize.h:237-252 | no redundancy: every sequence of digits is the encoding of its value |
| `Codec.DigitsAreMarked` | src/serialize.h:237-252 | and every encoding is such a sequence with that value |
| `StoredExamples.EncodingIff` | src/serialize.h:237-244 | the encoding of a number is the only sequence of marked digits for which the sum in the documentation is that number |
| `StoredExamples.DocumentedSizes` | src/serialize.h:246-246 | one byte exactly up to 127, two up to 16511, three up to 2113663 |
| `StoredExamples.DocumentedNumbers` | src/serialize.h:253-257 | nine of the eleven documented encodings, and what the code writes for the other two |
| `Amounts.CompressAmount` | src/main.cpp:5112-5129 | the 64-bit computation is the code of the amount modulo 2^64 |
| `Amounts.DecompressAmount` | src/main.cpp:5131-5155 | the 64-bit computation is the decoded amount modulo 2^64 |
| `Amounts.DecompressUndoesCompress` | src/main.cpp:5112-5155 | decoding undoes encoding for every natural number |
| `Amounts.CompressUndoesDecompress` | src/main.cpp:5112-5155 | encoding undoes decoding for every natural number |
| `Amounts.CompressedSize` | src/main.cpp:5112-5129 | a code is at most nine times the amount |
| `Amounts.NoOverflowOnMoney` | src/main.cpp:5112-5155 | nothing overflows on the money range |
| `StoredExamples.DocumentedAmounts` | src/test/compress_tests.cpp:39-44 | the six amounts of the test have exactly its codes |
| `ScriptCodec.DecompressUndoesCompress` | src/script.cpp:1948-2071 | each special script is stored as its kind and payload and comes back |
| `ScriptCodec.ScriptReadsBack` | src/script.h:638-663 | every script reads back as itself, special or not |
| `CoinsCodec.OutReadsBack` | src/main.h:695-706 | amount and script of an output read back |
| `CoinsCodec.MaskReadsBack` | src/main.h:1022-1032 | the mask reader stops exactly after the last byte that is not zero |
| `CoinsCodec.HeaderReadsBack` | src/main.h:982-992 | the header code fits 32 bits and all its parts can be read off it |
| `CoinsCodec.CoinsReadBack` | src/main.h:982-1042 | stored coins come back without null outputs at the end, and with a negative version reduced to seven bits |
| `CoinsCodec.CoinsRoundTrip` | src/main.h:982-1042 | for coins as the node keeps them the round trip is the identity if and only if the version is not negative |
| `CoinsCodec.UndoReadBack` | src/main.h:732-750 | an undo record comes back with a negative version reduced to seven bits, and with version 0 if it has no height |
| `CoinsCodec.UndoRoundTrip` | src/main.h:732-750 | for undo records the round trip is the identity if and only if the version is not negative, or zero in a record without height |
| `StoredExamples.FirstRecord` | src/main.h:851-863 | the first documented record has exactly the documented bytes |
| `StoredExamples.SecondRecord` | src/main.h:866-883 | and so has the second, with its mask bytes and two outputs of seventeen |
| `StoredExamples.UndoExample` | src/main.h:732-741 | undo records of a last output, of a coinbase and not, and of any other output: their bytes |
| `CoinsStream.CalcMaskSize` | src/main.h:936-953 | the nested loops count the mask bytes and those that are not zero |
| `CoinsStream.Serialize` | src/main.h:982-1008 | the loops write the specified bytes |
| `CoinsStream.Unserialize` | src/main.h:1011-1042 | the loops read as specified, end of stream included |
| `MemPool.NoSharedInputs` | src/main.h:2075-2076 | no two inputs in the pool spend the same output |
| `MemPool.FirstSpender` | src/main.cpp:836-841 | every proper descendant descends from a direct spender |
| `MemPool.NextSpent` | src/main.cpp:834-846 | removing the spender of one more output with its descendants removes exactly what descends from that output |
| `MemPool.OnlyItselfRemains` | src/main.cpp:834-846 | once the spenders of all outputs are gone, only the transaction itself remains of its descendants |
| `TxMemPool.Pool.Accept` | src/main.cpp:640-801 | a transaction joins if and only if it is acceptable, and the index stays exact; one that joins with its inputs checked may be mined: chain and pool offer each output it spends, mature, its script agrees, and it pays no more than it spends |
| `TxMemPool.AcceptedMayBeMined` | src/main.cpp:697-760 | what the checks amount to, in terms of single outputs offered by chain and pool; and an accepted transaction was neither there before nor in conflict with one that was |
| `TxMemPool.AcceptableBehindCache` | src/main.cpp:263-276 | the exact effect of pruned entries in the cache: acceptable behind the cache means acceptable on the set it stands for, and no pruned entry at the transaction itself or at one of the pool that it spends |
| `TxMemPool.SameAnswer` | src/main.cpp:263-276 | two caches that stand for the same set give different answers if and only if one of them alone hides a transaction that is acceptable on the set |
| `TxMemPool.PrunedIsHidden` | src/main.cpp:263-276 | a pruned entry for a transaction hides it, whatever set the cache stands for |
| `PoolOutcome.DisconnectedIsHidden` | src/main.cpp:1661-1673 | and such entries are what DisconnectBlock leaves in the cache for the transactions of the block |
| `TxMemPool.HiddenExample` | src/main.cpp:263-276 | an input: one coin, a transaction that spends it, and the cache with and without the pruned entry |
| `TxMemPool.Pool.AddUnchecked` | src/main.cpp:814-825 | pool and index gain exactly the transaction and its inputs |
| `TxMemPool.Pool.Remove` | src/main.cpp:828-850 | removes the transaction alone or with exactly its descendants in the pool; the index stays exact |
| `TxMemPool.Pool.RemoveConflicts` | src/main.cpp:852-865 | removes exactly what spends an input of the transaction and what depends on that |
| `TxMemPool.Pool.Clear` | src/main.cpp:867-873 | nothing is left |
| `TxMemPool.ConfirmAllLeavesNoConflict` | src/main.cpp:2032-2036 | after processing connected transactions the pool neither holds nor conflicts with any of them |
| `TxMemPool.FollowBestChain` | src/main.cpp:2025-2036 | the end of a reorganisation: the pool is what the transactions offered again made of it, one after the other, less confirmed and conflicting ones, and conflicts with no connected one |
| `TxMemPool.AcceptKeepsSpendable` | src/main.cpp:697-729 | after acceptance with inputs checked every input in the pool is provided by chain or pool |
| `TxMemPool.UncheckedIsNotSpendable` | src/main.cpp:930-946 | an input: accepted without that check, a transaction whose input nobody provides is in the pool |
| `PoolReorg.BlockKeepsPoolSpendable` | src/main.cpp:2032-2036 | and it stays so whenever a block extends the chain |
| `PoolReorg.BranchAdvances` | src/main.cpp:1966-1986 | after a branch is connected, an output is unspent only if it was before or the branch made it, and every such output is, unless the branch spends it |
| `PoolReorg.ConfirmAllSurvives` | src/main.cpp:2032-2036 | what is left in the pool conflicts with nothing connected, and each transaction has with it what it spends of the pool |
| `PoolReorg.SpendableIffBacked` | src/main.cpp:2024-2036 | after connecting, every input in the pool is provided if and only if it spends something that the fork, the offered pool or the new blocks provide |
| `PoolOutcome.KeptIs` | src/main.cpp:2032-2036 | exactly which transactions are left: those that were not connected, and that no connected transaction displaces, directly or through what they depend on |
| `PoolOutcome.SpendableIffNoOrphan` | src/main.cpp:1946-2036 | after a whole reorganisation, whatever the pool was before, every input is provided if and only if no transaction of the old pool stays and spends what neither the fork nor the pool with the transactions accepted again nor the new branch provides |
| `PoolOutcome.OrphansLostOutputs` | src/main.cpp:1946-2036 | if every input was provided before, what such a transaction misses is an output of a disconnected block |
| `PoolOutcome.FollowReorg` | src/main.cpp:2024-2036 | the loops at the end of SetBestChain composed: the pool afterwards, and when it is spendable, in terms of the pool before, the transactions of the disconnected blocks above the last checkpoint, and the two branches |
| `PoolOrphan.OrphanedChild` | src/main.cpp:2024-2036 | an input: a hundred blocks, a branch with a parent whose child is in the pool, another branch, and a policy that refuses the parent |
| `PoolReorg.NothingLost` | src/main.cpp:1957-1964 | no output is lost when every disconnected transaction was accepted again or connected again |
| `TemplateQueue.PopHighest` | src/main.cpp:4514-4534 | takes out a candidate that no other exceeds in the order in force |
| `TemplateQueue.Collect` | src/main.cpp:4599-4666 | reads an output that does not exist if and only if some eligible transaction overruns; otherwise every eligible transaction without missing inputs is queued with its priority and fee rate or waits for exactly its unknown parents, and one with a missing input is given up, but stays listed with the parents found before it |
| `TemplateQueue.CandidateIs` | src/main.cpp:4605-4660 | priority times size is the sum over the inputs of value times age in the chain, and fee rate times size is a thousand times what the inputs hold less what the outputs pay |
| `TemplateQueue.OverrunByPosition` | src/main.cpp:4641-4641 | an input: a position behind the outputs that the chain has of the parent |
| `TemplateQueue.OverrunByPrunedEntry` | src/main.cpp:4637-4641 | another: the pruned entry that disconnecting the parent has left, although every input is provided |
| `TemplateQueue.SpendableOverruns` | src/main.cpp:4611-4641 | the exact condition when every input is provided and nothing in the pool is in the chain: an input spends an output of the pool for which the view answers with a pruned entry that is too short |
| `TemplateQueue.NamesFreedMeans` | src/main.cpp:4617-4637 | the list of a transaction names a freed record if and only if a torn transaction was listed with it |
| `TemplateQueue.FreedIffTorn` | src/main.cpp:4611-4637 | the exact condition: some list names a freed record if and only if an eligible transaction has a missing input and its first input that the chain does not know is in the pool |
| `TemplateQueue.TornPool` | src/main.cpp:4611-4637 | an input: a pool of two transactions in which taking the first one meets a freed record |
| `TemplateQueue.SpendableIsNotTorn` | src/main.cpp:4613-4617 | a pool whose every input is provided has no such transaction |
| `TemplateQueue.Release` | src/main.cpp:4750-4765 | a freed record is met if and only if the list names one; otherwise a selected transaction releases exactly those that waited for it alone, each once |
| `BlockTemplate.TryTx` | src/main.cpp:4714-4733 | accepted exactly when inputs, amounts, scripts and signature operations allow, with the specified effect |
| `BlockTemplate.SelectTransactions` | src/main.cpp:4668-4766 | terminates; reads an output that does not exist if and only if a transaction of the pool overruns, and meets a freed record if and only if it takes one with which a torn one was listed; otherwise its turns are exactly those that the rules prescribe one after the other, they do not stop while something is ready, fees and signature operations listed are those of each transaction at its place, and what had no turn waits for a transaction not taken |
| `TemplateTurns.TakenIff` | src/main.cpp:4675-4733 | a turn takes its transaction if and only if size and signature operations stay below their limits, in order of fees the fee rate is not below the minimum for a block past the minimum size, every output it spends is there, mature and enough after those taken before, and every script verifies |
| `TemplateTurns.NoneReadyExceeds` | src/main.cpp:4668-4674 | at every turn nothing that could be taken has a higher priority, or fee rate, whichever order is in force, ties broken by the other |
| `TemplateTurns.SwitchesIff` | src/main.cpp:4704-4712 | a turn ends the order of priorities if and only if its transaction is not too large and passes the end of their part of the block, or is worth less than a coin a day old in 250 bytes |
| `TemplateTurns.ByFeeSince` | src/main.cpp:4663-4712 | fees are in force exactly from the first such turn on, or from the start when there is no part for priorities |
| `TemplateTurns.RefusedForReason` | src/main.cpp:4668-4766 | whatever was looked at and is not in the block had one turn that refused it |
| `TemplateTurns.TakenForReason` | src/main.cpp:4668-4766 | whatever is in the block had one turn that took it, after exactly those before it in the block |
| `BlockTemplate.BoundedIs` | src/main.cpp:4554-4577 | the limits in force are the configured ones, kept between 1000 and 999000 bytes, or 500000 while that is the limit, and parts no larger than the whole |
| `BlockTemplate.ParentsFirst` | src/main.cpp:4750-4765 | every selected transaction comes after those of the block whose outputs it spends |
| `BlockTemplate.CreateNewBlock` | src/main.cpp:4536-4790 | unless one of these two things happens, under exactly these conditions: the coinbase pays subsidy plus selected fees, the selection is one of SelectTransactions under the limits in force, turn by turn, with its fees and signature operations, and the final ConnectBlock does not fail |
| `Template.ConnectTxsBehind` | src/main.cpp:1816-1856 | transactions that connect in order still do, with the same effect, behind a coinbase |
| `Template.TemplateConnects` | src/main.cpp:4772-4789 | any selection behind its coinbase passes the block checks and connects |
| `BlockTemplate.AcceptKeepsPoolOk` | src/main.cpp:707-709 | accepted transactions are not in the chain yet |
| `BlockTemplate.BlockKeepsPoolOk` | src/main.cpp:2032-2036 | and those that enter the chain leave the pool |
| `MedianTime.MedianAtLeast` | src/main.h:1755-1767 | the median is at least x if and only if at most half the window is below x |
| `MedianTime.GetMedianTimePast` | src/main.h:1755-1767 | walk, sort and middle element compute the median of the last eleven or fewer times |
| `MedianTime.MedianNeverDecreases` | src/main.cpp:2331-2332 | along every accepted chain the median time past never decreases, short windows included |
| `MedianTime.LaterThanEveryAncestor` | src/main.cpp:2331-2332 | every block is later than the median time past of all its ancestors |
| `Compact.WordIs` | src/bignum.h:308-330 | the stored word is the number shifted by the stored size, below the sign bit and with fifteen significant bits |
| `Compact.RoundIs` | src/bignum.h:289-330 | encoding and decoding clears the digits below the word and keeps the sign |
| `Compact.RoundsDown` | src/bignum.h:289-330 | targets are rounded down by less than one part in 2^15 |
| `Compact.RoundIsStable` | src/bignum.h:289-330 | encoding a rounded number again changes nothing |
| `Retarget.LookupSucceeds` | src/main.cpp:1288-1304 | the assertion on the block looked back to cannot fire |
| `Retarget.EmaWantedIs` | src/main.cpp:1097-1247 | above height 101631 a late block wants ten or two times the target, by height; any other the target times the average kept between 60 and 240 seconds, 480 up to height 110322, over 120, rounded down |
| `Retarget.NextTargetIs` | src/main.cpp:1249-1335 | the required target is that one, cut at limit and cap, and stored with less than one part in 2^15 lost |
| `Retarget.FastBlocksRaiseDifficulty` | src/main.cpp:1209-1246 | an average below two minutes makes the target strictly lower |
| `Retarget.SlowBlocksLowerDifficulty` | src/main.cpp:1209-1246 | an average above two minutes makes it strictly higher, unless limit or cap is reached |
| `Retarget.SteadyBlocksKeepDifficulty` | src/main.cpp:1209-1246 | at two minutes exactly it stays the same, bit for bit |
| `Retarget.LateBlockIsEasier` | src/main.cpp:1119-1136 | a block more than twenty minutes late is allowed ten times the target below height 103791 and twice from there on, up to limit and cap |
| `Retarget.IntervalWantedIs` | src/main.cpp:1278-1330 | up to there every thirtieth block wants the target times what the blocks looked back over took, scaled to an hour and kept between a quarter and four hours, over an hour |
| `Retarget.NextIntervalTargetIs` | src/main.cpp:1278-1335 | and that, cut at the limit, is required of every thirtieth block, and of the others what their parent had |
| `Retarget.NextWithinLimits` | src/main.cpp:1249-1335 | after any block the required target is within the limit, and within the cap above height 104290 |
| `Retarget.NextWithinFactorTwo` | src/main.cpp:1097-1247 | above height 110322 it at most doubles, and at most halves up to truncation |
| `Retarget.TargetsWithinLimits` | src/main.cpp:2327-2328 | along every accepted chain, whatever the moving average was |
| `Retarget.TargetsWithinFactorTwo` | src/main.cpp:1209-1246 | along every accepted chain, whatever the moving average was |
| `Retarget.WorkIsPositive` | src/main.h:1734-1741 | a target in range is worth at least 2^32 work |
| `Retarget.WorkIsAntitone` | src/main.h:1734-1741 | a smaller target is worth at least as much work |
| `Retarget.WorkIs` | src/main.h:1734-1741 | the work of a block is 2^256 over its target plus one, rounded down, and none without a target |
| `Retarget.HalfTargetDoublesWork` | src/main.h:1734-1741 | half the target is twice the work, up to one part in twice the target and rounding |

## Left out

- Script evaluation, signature checks, hash functions and elliptic curve arithmetic: parameters.
- Disk files, LevelDB, wallets, network, RPC, start-up and the user interface: the coin database is a map, writes may fail
  arbitrarily, notifications have no effect.
- ConnectBlock with fJustCheck, block file positions, checkpoints, and the checks of CheckBlock and AcceptBlock that do not
  concern transactions, median time or targets: one arbitrary verdict.
- The subsidy for a shift by 64 or more, which is undefined in the original: heights are bounded accordingly.
- Overflow of the 32-bit id counter of the address manager and of nTransactionsUpdated: counters are unbounded.
- The scheduling of threads inside the check queue below critical sections, and spurious progress guarantees such as
  fairness: steps are atomic and may come in any order.
- Select_ and GetChance of the address manager, and GetMedianTime, which only read.
- ChainState.Chain.SetBestChain: an error in connecting may or may not stop the node, as the answers say; the exception that
  ConnectBestBlock turns into a stop is not modelled, and the two blocks exempt from BIP 30 are outside the model.
- ChainState.Chain.InvalidBlockFound: the call of ConnectBestBlock for a block with a successor is not modelled, because
  SetBestChain calls it only for blocks off the active chain, which have none.
- ChainState.Chain.AddToBlockIndex: pindexGenesisBlock is set when the first block is inserted rather than in SetBestChain.
- AddrMan.Manager.SelectTried: the entry at the returned place need not be the least recent one, because the original records
  the place before its swap; the contract says which place that is.
- AddrCheck.Check: the entries that these lookups add to mapAddr; they do not change what Check_ answers.
- AddrRoundTrip.RoundTrip: the time of the last attempt is not stored by the original and is 0 after reading.
- AddrDisk.Read: an image with more buckets than the table has, or fewer entries than it announces, is outside the model,
  because the original then reads past its tables or throws.
- Retarget.TargetsWithinLimits: for the main network; the value of the moving average is arbitrary, and so the float loops
  that compute it are not modelled.
- TxMemPool.AcceptableBehindCache: the rules on fees and standard inputs are one given verdict, the same for both views.
- BlockTemplate.CreateNewBlock: takes coins from the flat set instead of the two layers of views; priorities and fee rates are
  real numbers rather than doubles, and the id of the coinbase is assumed to be new.
- Codec.ReadVarIntLoop: signed overflow while reading a corrupt number is modelled as wrap-around.
- Orphan pools, alerts, bloom filters, semaphores, base58 and the remaining utilities: easier than what is modelled.

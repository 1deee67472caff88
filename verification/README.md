# A verified model of corechain

This project models the parts of corechain that keep a chain of blocks and a table of unspent outputs in step with each
other, and proves what they keep. It is plain Dafny 4.11; `dafny verify dfyconfig.toml` checks everything.

What is modelled:

- **The ledger** (`Tree`, `TreeWalk`, `LedgerSpec`, `LedgerRecords`, `LedgerPrune`, `Ledger`, `LedgerView`, `LedgerRuns`,
  `Accesses`, `CachedLedger`).
  Blocks form a tree. Confirming a block places it at the root, on the tip, on a side branch, or on a side branch that
  thereby becomes the trunk; truncating cuts the tree back. Trunk flags, forward links, the height index, the branch
  table, tip and height, and the block each transaction record points to are separate tables that have to agree.
  `Ledger.Ledger` holds the tables and updates them in place, a batch at a time; each method is proved against a
  function on the tables, and the invariants are proved of those functions and then over whole histories.
  The methods also tell the order in which they fetch, save and remove headers (`Accesses`); `CachedLedger` follows
  that order through the header cache.
- **The state machine** (`Effects`, `Touch`, `Utxo`, `Worth`, `Chain`, `Reversal`, `Machine`, `Play`, `Mempool`, `Walk`,
  `Check`, `Checked`, `Overlay`, `Passing`, `Repeats`, `Runs`, `Finality`, `Conservation`, `Limits`, `StateSteps`, `State`). Pool
  transactions are applied when they arrive, their fees are paid only when a block confirms them, blocks are undone and
  redone when the machine walks to another branch. The main claim is path independence, `Machine.Replayed`: the table is
  what replaying the applied chain from nothing gives, with the pool on top, and the total is what the chain has issued.
  For each kind of step, for walks and for whole runs, it is proved exactly when this is kept. Whether blocks are valid
  does not enter into it: `Touch` and `Reversal` tell, key by key, when undoing restores a table, and `Overlay` when
  playing a block over the pool equals replaying it. A second claim, `Machine.Faithful`, adds validity: every block of the
  applied chain finds its inputs as it declares them (`Chain.ChainFits`), and every cached balance is the sum of the
  address's entries; `Checked` says for each kind of step exactly when the checks the program makes are enough for that.
  `Passing` says when blocks and walks get through at all, and what of that depends on the cache of recent entries, which
  may drop anything at any time.
  Tables are told by a *web* of effects (`Effects.IsNet`): what was there and what was made, less what was spent, whatever
  the order. `State.State` is the machine with its fields, batch and caches.
- **Smaller cores**: the Merkle tree built in one array (`Merkle`), compact proof-of-work targets (`Compact`) and
  retargeting (`Retarget`), the LRU cache (`Lru`) and block headers read through it (`HeaderCache`), the reverse index
  from keys to accounts (`Accounts`), and prefix ranges with the iterator that starts in the middle (`Ranges`).

Terms: a block is *valid* on a table, or fits it (`Chain.BlockFits`), when each of its transactions finds what it spends as
it declares it; `Check.ReplaysIff` says what that means without replaying. Any block can be *replayed*, valid or not. A *web* maps txids to effects. `View` is the tree of blocks
with their transactions, as the state machine sees the ledger.

Assumptions taken from the program's own setting: block ids are new and blocks arrive without a forward link; a txid
stands for one transaction (`LedgerSpec.TxidsIdentify`); transaction deduplication is switched on. Hashes and ids are
opaque values compared for equality. Public operations are atomic. Signatures, contract execution and clocks enter as
parameters (`invalid`, `full`, `genesisLoads`, `enoughGas`, timestamps in headers).

## Where the program does less than one might hope

Each of these is a lemma with a concrete input, beside a lemma that gives the exact condition for all inputs.

- The input check never compares the frozen height an input declares with the recorded one. Undoing a transaction then
  restores another entry than it took (`Limits.WrongFreezeNotRestored`; exactly when: `Effects.RevertApplyIff`, for a
  block `Reversal.UndoRestoresIff`, for one that passed its check `Checked.CheckedRestoresIff`, and for a submitted
  transaction `Checked.SubmitReplaysIff`).
- While a walk redoes a block, a key already spent in that block is still found in the stored table, so two
  transactions can spend it (`Limits.DoubleSpendPasses`). The walk still leaves the replay of its destination, and undoing
  the block still restores the table; what is lost is validity (exactly when a checked block is valid:
  `Check.CheckedBlockFitsIff`, and for a whole walk `Checked.WalkValidIff`) and worth (exactly when a checked block
  conserves it: `Conservation.CheckedConservesIff`). Playing a received block does look for this.
- A received block may rest on the pool instead of the chain. It may hold a pool transaction without its parent, which
  is in the pool too; that one is played without a check (`Limits.ChildWithoutParent`). Or it may hold a transaction
  from outside that spends what a pool transaction pays; that one passes its check against the stored table
  (`Limits.OutsideChildPasses`). Either way the table loses the payment while the parent stays in the pool, and is no
  longer the replay with the pool on top (exactly when it is: `Overlay.PlayedReplaysIff`, and for a block made here
  `Overlay.MinedReplaysIff`).
- A received block that spends what a pool transaction has spent, or any block that spends a fee it pays itself, goes
  through only while the cache of recent entries still has the entry: neither the batch cache nor the stored table has it
  (`Limits.ConflictNeedsCache`; a block goes through whatever the cache has dropped exactly when `Passing.AlwaysGoesIff`
  says, a valid one when `Passing.ValidGoesIff` says, and the cache does not matter for a block without such inputs:
  `Passing.GoesThroughIff`).
- A coinbase transaction that promises a fee, or one that spends and balances, passes the check and moves worth and
  total apart
  (`Limits.CoinbaseFeeNotCounted`; exactly when: `Worth.SettleConservesIff`, and by how much for whole chains:
  `Conservation.Conserved`).
- On a trunk switch, a block is compared with trunk blocks up to the fork only; a transaction that the adopted side
  branch already holds is accepted again (`LedgerRuns.RepeatAccepted`; exactly when: `LedgerRecords.AcceptedAvoidsPathIff`).
- Truncating puts the target in place of the branch tips it removes, not the side blocks they leave bare, so the branch
  table stays exact only sometimes (exactly when: `LedgerPrune.TruncateLeavesIff`). A second truncate then leaves side
  blocks above the new tip (`LedgerRuns.SecondTruncateFails`; exactly when a truncate keeps the trunk invariant:
  `LedgerPrune.CutKeepsTrunkIff`, and over whole histories `LedgerRuns.HistoryTrunkIff`).
- A confirm that is refused after its headers were saved leaves them in the header cache: a block with two coinbases is
  then found although nothing is stored (`CachedLedger.RefusedStaysCached`; fetches after a confirm are reads of the table
  exactly when the block was accepted or the cache has no room at all: `CachedLedger.ConfirmReadsIff`).
- A scaled difficulty from 2^255 on yields bits that decode with an overflow, so that no hash is accepted: bits
  0x207fffff followed by blocks four times too slow (`Retarget.SlowBlocksStopMining`; exactly when:
  `Retarget.NextAcceptedIff`).
- Where no retarget is due, the target is taken from the block before the parent. A new target therefore holds for every
  second block only, and the blocks between keep the one before it (`Retarget.RetargetSkipsNext`; for all chains
  `Retarget.TargetsAlternate`, and exactly when the target is steady from one retarget to the next:
  `Retarget.WindowSteadyIff`).

## Model

| member | source | states |
|---|---|---|
| `Tree.ForkIsLowestCommonAncestor` | ledger/branch_manage.go:110-147 | A block is a common ancestor of two blocks exactly when it is on the path of their fork block |
| `LedgerSpec.SwitchTouches` | ledger/ledger.go:435-478 | A trunk switch rewrites exactly the headers above the fork on one of the two branches, and the fork block; every other header stays as it is |
| `LedgerSpec.RelinkMarks` | ledger/ledger.go:435-478 | After it exactly the blocks on the path to the new block are flagged, their forward links lead along that path to it, and the others have none |
| `LedgerSpec.ConfirmKeepsTrunk` | ledger/ledger.go:595-818 | Every confirm keeps: flagged blocks are exactly the path from tip to root, forward links lead along it, the tip is highest, the height index lists it |
| `LedgerRecords.ConfirmKeepsInv` | ledger/ledger.go:595-818 | Every confirm keeps the whole ledger invariant, with all bodies stored and every record backed by a block that lists it |
| `LedgerRecords.ConfirmKeepsRecords` | ledger/ledger.go:408-428 | If the path to the new tip repeats no txid, each trunk transaction's record points at its trunk block, also after a switch |
| `LedgerRecords.DuplicatesBelowSplit` | ledger/ledger.go:724-770 | The duplicate test finds exactly the repeats at or below the height where the path leaves the old trunk |
| `LedgerRecords.AcceptedAvoidsPathIff` | ledger/ledger.go:755-770 | An accepted trunk block repeats nothing of its path exactly when it repeats nothing above that height; on a plain extension always |
| `LedgerRecords.ConfirmKeepsLeaves` | ledger/branch_manage.go:12-25 | Along confirms the branch table is exactly the leaves with their heights, and the tip has no forward link |
| `LedgerPrune.TruncateKeepsTrunk` | ledger/ledger.go:1180-1238 | Removing exactly the blocks above a trunk block re-establishes the trunk invariant with that block as tip |
| `LedgerPrune.TruncateKeepsRecords` | ledger/ledger.go:1180-1238 | Truncating keeps bodies stored and trunk records pointing at trunk blocks |
| `LedgerPrune.TipsCoverAbove` | ledger/ledger.go:1204-1222 | Every block above a height is on the way down from a branch tip above it |
| `LedgerPrune.TruncateLeavesIff` | ledger/ledger.go:1204-1222 | The branch table is exact after a truncate if and only if no side block at the target's height had a child |
| `LedgerPrune.CutExactIff` | ledger/ledger.go:1204-1222 | A truncate removes exactly the blocks above the target's height if and only if each of them is below a tip the branch table lists |
| `LedgerPrune.CutKeepsTrunkIff` | ledger/ledger.go:1180-1238 | A truncate to a trunk block keeps the trunk invariant if and only if the same holds |
| `LedgerPrune.LeavesCut` | ledger/ledger.go:1180-1238 | With the exact leaves in the branch table it does |
| `Ledger.Ledger.constructor` | ledger/ledger.go:113-204 | A new ledger has empty tables |
| `Ledger.Ledger.CorrectTxsBlockid` | ledger/ledger.go:408-428 | The batch points the records of a stored block's transactions at it; a missing block changes nothing |
| `Ledger.Ledger.HandleFork` | ledger/ledger.go:435-478 | The lockstep walk meets exactly at the lowest common ancestor, leaves the relinked, reindexed, repointed batch, and fetches both blocks of each height before it saves them |
| `Ledger.Ledger.RecordBlockTxs` | ledger/ledger.go:724-770 | Succeeds exactly with at most one coinbase and no duplicate, and then stages the records of all transactions; reports a duplicate exactly when it comes before a second coinbase |
| `Ledger.Ledger.PlaceBlock` | ledger/ledger.go:624-690 | Finds a place exactly for a root in an empty ledger or a block with a known parent, and stages what that changes in other blocks |
| `Ledger.Ledger.ConfirmBlock` | ledger/ledger.go:595-818 | The tables become those after the confirm or stay as they were, the status says which, the invariant holds either way, each error is reported exactly for its cause, and headers are fetched and saved in the given order |
| `Ledger.Ledger.FindUndoAndTodoBlocks` | ledger/ledger.go:945-1012 | The two parent chains down to, but excluding, the lowest common ancestor, for any two blocks |
| `Ledger.Ledger.GetCommonParentBlockid` | ledger/branch_manage.go:110-147 | The lowest common ancestor of any two stored blocks |
| `Ledger.Ledger.GetBranchInfo` | ledger/branch_manage.go:27-61 | Exactly the branch tips above the target's height, without the target |
| `Ledger.Ledger.RemoveBlocks` | ledger/ledger.go:1149-1177 | Removes exactly the blocks from a tip down to a height, with their trunk heights, fetching the parent after each |
| `Ledger.Ledger.Truncate` | ledger/ledger.go:1180-1238 | Removes exactly the chains below the listed branch tips down to the target's height, tip by tip though they share ancestors, and makes the target the tip |
| `Ledger.Ledger.QueryHeaderByHeight` | ledger/ledger.go:1132-1143 | Finds a block exactly up to the trunk height, and it is the trunk block of that height |
| `LedgerView.ConfirmExtendsView` | ledger/ledger.go:826-858 | Confirming a block, trunk switch or not, adds that block with its transactions to what is read back and changes nothing else |
| `LedgerView.ConfirmIsStep` | ledger/ledger.go:595-818 | Every confirm is a step of the runs of the state machine below |
| `LedgerRuns.HistoryTrunkIff` | ledger/ledger.go:1180-1238 | Along every history of confirms and truncates from the empty ledger, the trunk invariant holds after each operation if and only if each truncate found the blocks above its target below listed tips |
| `LedgerRuns.HistoryKeeps` | ledger/ledger.go:595-818 | As long as it did, bodies stay stored and every listed tip is a block with its height |
| `LedgerRuns.FirstCutCovered` | ledger/ledger.go:1204-1222 | The first truncate of a history always does |
| `LedgerRuns.SecondTruncateFails` | ledger/ledger.go:1204-1222 | A concrete ledger with exact leaves in which a truncate followed by another leaves a block above the tip |
| `LedgerRuns.HistoryKeepsLeaves` | ledger/branch_manage.go:12-61 | After every history of confirms from the empty ledger the branch table is exactly the leaves, the invariant holds and every record is backed |
| `LedgerRuns.HistoryKeepsRows` | ledger/ledger.go:709-778 | If no path from the root repeats a txid, after every history of confirms from the empty ledger each trunk transaction's record points at its trunk block |
| `LedgerRuns.RepeatAccepted` | ledger/ledger.go:755-770 | A concrete ledger and block that is accepted with a switch although its own branch already holds its transaction |
| `Effects.RevertApplyIff` | state/state.go:976-1029 | Undoing undoes doing exactly when nothing is made over an existing entry and spent entries are declared as recorded |
| `Effects.AddEffect` | state/state.go:832-875 | One more effect that fits leaves the net of the larger web |
| `Effects.RemoveEffect` | state/state.go:983-1026 | Undoing an effect nobody depends on leaves the net of the smaller web |
| `Effects.SettleEffect` | state/state.go:1221-1242 | Paying fees late leaves the net of the web in which the transaction made them |
| `Effects.NetAfterNet` | state/state.go:488-508 | Two disjoint webs run together are one run after the other |
| `Touch.BackInvertsIff` | state/state.go:1055-1073 | Undoing any sequence of effects from the back undoes doing them if and only if, of every key, the first effect that touches it makes it anew or spends it as the table has it; later double spends and wrong declarations do not matter |
| `Touch.DetourIff` | state/state.go:689-704 | Undoing some effects and then doing others leaves what the others alone would, if and only if the same holds of every key the others do not touch |
| `Utxo.DoTxTable` | state/state.go:832-875 | Doing a transaction output by output applies its effect; paying its fees after that, the settled one |
| `Utxo.UndoTxTable` | state/state.go:983-1028 | Undoing it reverts its effect; undoing its fees after that, the settled one |
| `Utxo.EntriesIff` | state/state.go:842-875 | An output becomes an entry of its address exactly if it is no fee and not worthless, a fee becomes one of the proposer, worthless or not and never frozen; each under its offset |
| `Worth.TxTotal` | state/state.go:866-869 | The total moves by the outputs of coinbase transactions only, and never by fees |
| `Worth.SettleConservesIff` | state/utxo/utxo.go:206-221 | A balanced transaction with its fees keeps worth and total in step exactly when it is no coinbase or its fees equal its inputs; a coinbase moves them apart by its fees if it spends nothing, and by what it pays otherwise |
| `Worth.DoTxCoherent` | state/utxo/utxo.go:498-521 | Cached balances stay the sums of entries through a transaction that fits |
| `Worth.UndoTxCoherent` | state/utxo/utxo.go:498-521 | Likewise through undoing it |
| `Chain.BlockNet` | state/state.go:1157-1191 | A block that replays is the web of its settled effects, whatever its order |
| `Reversal.UndoRestoresIff` | state/state.go:1055-1073 | Undoing any played block from the back, each fee after its transaction, always takes back its part of the total, and restores the table if and only if the first transaction that touches a key makes it anew or declares it as recorded |
| `Reversal.SkippedLosesFees` | state/state.go:1055-1073 | Undoing a block whose transactions were all undone with the pool takes back its fees and nothing else |
| `Chain.ChainExtends` | ledger/ledger.go:826-858 | New blocks in the tree change nothing about the replay of chains already there |
| `Machine.ReplayAlone` | state/state.go:652-712 | With nothing pending, table and total are the replay of the applied chain |
| `Machine.SubmitReplayed` | state/state.go:747-815 | A transaction whose inputs are there as declared and whose txid is new leaves the replay with the longer pool on top |
| `Machine.RollbackReplayed` | state/state.go:614-649 | Undoing the pool in reverse of any dependency order leaves the replay of the applied chain |
| `Machine.UndoBlockValid` | state/state.go:1053-1093 | Undoing the applied block leaves a valid machine valid |
| `Machine.DoValidIff` | state/state.go:1157-1207 | Doing a child block leaves a valid machine valid if and only if the block is valid on its parent |
| `Play.UndoEachSound` | state/state.go:1382-1393 | Undoing conflicts children first removes exactly them, and only once each |
| `Play.ConflictsOutside` | state/state.go:1367-1379 | No transaction of a block that replays is among the conflicts to undo |
| `Play.PlayValidIff` | state/state.go:457-539 | Playing a block over an applied pool leaves a valid machine valid if and only if the block is valid on its parent |
| `Play.MineValidIff` | state/state.go:386-452 | The same for a block made here in which the transactions from the pool are exactly those that are neither coinbase nor generated |
| `Checked.MinedTotal` | state/state.go:411-428 | A block made here raises the total by what its coinbases pay, whatever the pool holds |
| `Mempool.Dfs` | ledger/tx/mempool.go:240-274 | Depth first search lists the node after all that depends on it, and everything new before it has a parent further on |
| `Mempool.FindConflictByTx` | ledger/tx/mempool.go:196-230 | Every pool transaction that spends a key of the given one, and exactly their descendants, children first |
| `Mempool.FindConflicts` | state/state.go:1358-1380 | The collected conflicts of a block are what playing it relies on |
| `Mempool.ReplayedPool` | ledger/tx/mempool.go:291-309 | In a pool on top of a replay no key is spent twice, none spends its own output, and links between transactions are real outputs |
| `Mempool.OrderRanks` | ledger/tx/mempool.go:84-144 | A dependency order of a pool ranks it from parents to children, so the search ends |
| `Walk.NextIrreversible` | state/meta/meta.go:365-391 | The irreversible height never falls and never reaches above the applied block (what the window makes of it over runs is `Finality.IrreversibleIff`) |
| `Walk.WalkReplaysIff` | state/state.go:652-712 | A completed walk, wherever it started and whatever the pool held, leaves nothing pending and the total of its destination; it leaves the table of its destination if and only if every key the redone blocks do not touch was first touched by the undone blocks as recorded |
| `Walk.UndoneReplaysIff` | state/state.go:1053-1093 | Undoing the applied block leaves the replay of its parent's chain if and only if the block restores its parent's table |
| `Walk.DoneReplays` | state/state.go:1157-1207 | Redoing a child block with nothing pending leaves the replay of the longer chain, whatever the block holds |
| `Walk.WalkReplays` | state/state.go:652-712 | A walk whose undone blocks restore their tables leaves the replay of its destination |
| `Walk.ValidWalkReplays` | state/state.go:652-712 | A walk of a valid machine leaves the replay of any destination, valid or not, and a valid machine if the chain there is valid |
| `Walk.WalkForgets` | state/state.go:670-676 | A walk leaves no balance cached, however wrong the cached balances were before |
| `Runs.BeginsFaithful` | state/state.go:82-147 | A new machine on an empty tree is faithful and its pool ordered, so runs can begin there |
| `Runs.StepReplaysIff` | state/state.go:652-712 | A submit, rollback, undone, redone, played or mined block that the program lets through leaves the replay with the pool on top if and only if: a submitted txid is new and its frozen heights as recorded; an undone block restores its table; a played or mined block rests on nothing that stays in the pool |
| `Runs.RunReplays` | state/state.go:652-712 | Over every run of such steps the table is the replay of the applied chain with the pool on top, and the total what it has issued |
| `Runs.RunReplaysIff` | state/state.go:652-712 | An accepted run holds that all along if and only if each of its steps is such a step |
| `Runs.RunOrdered` | ledger/tx/mempool.go:84-144 | Over every such run from a new machine the pool has a dependency order, so that it can be rolled back |
| `Runs.PathIndependence` | state/state.go:652-712 | Two such runs that end at the same block with nothing pending end with the same table and total, whatever branches they visited and whether or not their blocks are valid |
| `Runs.StepValidIff` | state/state.go:652-712 | A step the program lets through, with new txids, leaves a valid machine valid if and only if it names its inputs as recorded, from the chain or the block itself, and spends none twice |
| `Runs.RunValidIff` | state/state.go:652-712 | An accepted run keeps the machine valid all along if and only if every step is such a step |
| `Finality.BeginsAnchored` | state/state.go:82-147 | A new machine on an empty tree is anchored, so that runs can begin there |
| `Finality.IrreversibleStays` | state/state.go:1039-1050 | Over every run without pruning, once a height is irreversible the block applied there never changes, whatever fails and whether or not blocks replay |
| `Finality.IrreversibleIff` | state/meta/meta.go:365-391 | Over every run with a fixed window that is not zero, a height is irreversible if and only if it was when the run began, or a block at least the window above it has been done, played or mined since |
| `Finality.UndoableIff` | state/state.go:1039-1050 | So the applied block can be undone if and only if neither holds of its height |
| `Finality.NoWindow` | state/meta/meta.go:365-391 | With a window of zero nothing more becomes irreversible |
| `Conservation.NetWorth` | state/state.go:832-875 | What a web leaves is worth what there was plus what it makes less what it spends |
| `Conservation.CheckedWorth` | state/state.go:1157-1191 | A block with new txids that passed its checks adds to the worth of the table what it issues, what its coinbases promise in fees beyond what they spend, and the amounts it spends again |
| `Conservation.CheckedConservesIff` | state/state.go:1157-1191 | If its coinbases promise what they spend, it adds exactly what it issues if and only if nothing of any amount is spent twice in it |
| `Conservation.Conserved` | state/state.go:866-869 | Of a valid machine, table and pending fees together exceed the total by exactly what the coinbases of the chain promise in fees beyond what they spend |
| `Conservation.RunConserves` | state/state.go:832-875 | The same, and every cached balance right, after every run that keeps the machine valid |
| `Check.PassedIff` | state/utxo/utxo.go:131-222 | A transaction passes exactly with balanced sums and distinct inputs, each matching, by amount and not frozen, what the cache has under its key, or else the batch, or else the stored table |
| `Check.PassesIff` | state/utxo/utxo.go:131-222 | Where cache and batch tell the table as it is now, a transaction passes, whatever the cache has dropped, if and only if it balances and each of its distinct inputs matches what is there now, or was stored and is spent by now |
| `Check.VerdictSays` | state/utxo/utxo.go:131-222 | Any other verdict names what is wrong with the first input that repeats a key or does not match: repeated, not found, another amount, or frozen; or else that the sums do not agree |
| `Check.CheckInputEqualOutput` | state/utxo/utxo.go:131-222 | The loops return the verdict of the first input that fails, or that of the sums |
| `Check.CheckedBlockFitsIff` | state/state.go:1157-1191 | A block with new txids whose transactions all passed replays exactly when it spends no key twice and declares frozen heights as recorded |
| `Check.ReplaysIff` | state/state.go:1157-1191 | A block replays exactly when txids are distinct, no key is spent twice, and every input names an entry of the table or of an earlier transaction as recorded |
| `Checked.SubmitReplaysIff` | state/state.go:747-815 | A transaction that passed its check leaves the replay with the longer pool on top if and only if its txid is not on the applied chain and it declares frozen heights as recorded |
| `Checked.CheckedRestoresIff` | state/state.go:1055-1073 | Undoing a block with new txids that passed its checks restores the table if and only if, of every entry the block spends, the first to spend it declares the frozen height as recorded |
| `Checked.DoneValidIff` | state/state.go:1157-1207 | A redone block with new txids that passed its checks leaves a valid machine valid if and only if it spends nothing twice and declares frozen heights as recorded |
| `Checked.PlayedFitsIff` | state/state.go:457-539 | A block with new txids that was found free of double spends, and whose transactions from outside the pool passed their checks over it, is valid on its parent if and only if its inputs come from the parent's table or earlier in the block, with frozen heights as recorded |
| `Checked.PlayedValidIff` | state/state.go:457-539 | Under the same condition playing it leaves a valid machine valid |
| `Checked.MinedValidIff` | state/state.go:386-452 | The same for a block made here, where double spends are not looked for; that its own transactions find their inputs is proved |
| `Checked.WalkValidIff` | state/state.go:652-712 | A successful walk leaves a valid machine valid if and only if every block it redid spends nothing twice and declares frozen heights as recorded |
| `Overlay.OverlayIff` | state/state.go:486-508 | A block played over a pool, where what is in the pool counts as applied, leaves the table of the replayed block with the rest of the pool on top if and only if a condition on who pays and spends it holds of every key |
| `Overlay.GroundedIff` | state/state.go:486-508 | That condition, transaction by transaction: what one spends of a kept pool transaction, the block pays before; and one undone as a conflict, yet counted as applied, spends nothing of the table nor of what a kept transaction pays earlier in the block, and pays nothing that the block does not spend later |
| `Overlay.PlayedReplaysIff` | state/state.go:457-539 | Playing a received block in which double spends were looked for and conflicts undone leaves the replay of the longer chain with the rest of the pool on top if and only if that condition holds; whether the block is valid does not matter |
| `Overlay.MinedReplaysIff` | state/state.go:386-452 | The same for a block made here, which may spend twice, told by the flags of its transactions; its total rises by what its coinbases pay |
| `Passing.AlwaysGoesIff` | state/state.go:457-539 | A block goes through whatever the cache has dropped, if and only if every transaction that is not applied is not refused, balances, and has distinct inputs that match what is there in its turn and, with nothing cached, what the batch has made or else the stored table |
| `Passing.GoesThroughIff` | state/state.go:457-539 | If its inputs name no fee paid in the block and nothing that undoing conflicts has brought back, a block goes through, with any cache, if and only if every transaction that is not applied is not refused, balances, and has distinct inputs that match what is there in its turn, or was stored and is spent by now |
| `Passing.CacheDoesNotMatter` | state/state.go:457-539 | Nor does the error such a block meets depend on the cache |
| `Passing.ValidGoesIff` | state/state.go:1157-1207 | A valid block goes through whatever the cache has dropped, if and only if none of its transactions is refused, it spends nothing frozen, and it spends no fee that it pays itself |
| `Passing.PlayResultIff` | state/state.go:457-539 | A received block is invalid exactly if a transaction from outside the pool is, coinbases that were not generated aside; otherwise the checks decide, and after them the window |
| `Repeats.RepeatRefused` | state/state.go:747-815 | On a chain of blocks that named known entries, a transaction with inputs that is on the chain already does not pass its check again, whatever the pool holds |
| `Repeats.CheckedIsNew` | state/state.go:1157-1191 | The txids of a block that passed its checks are new to such a chain, and the longer chain is such a chain again, if txids stand for one transaction, are not repeated within the block, and those of transactions without inputs are new |
| `Limits.DoubleSpendPasses` | state/utxo/utxo.go:166-196 | Both transactions of a concrete block get the verdict passed, at any height and whatever the caches show, though they spend the same coin, which is doubled; undoing the block restores the table |
| `Limits.WrongFreezeNotRestored` | state/utxo/utxo.go:197-214 | A concrete transaction with a wrong frozen height gets the verdict passed and is not undone exactly, alone or in a block |
| `Limits.CoinbaseFeeNotCounted` | state/utxo/utxo.go:214-221 | A concrete coinbase with a fee gets the verdict passed and leaves the table worth more than the total |
| `Limits.ChildWithoutParent` | state/state.go:486-508 | A concrete valid machine and a block of a pool transaction without its parent, played over it: the table is not the replay with the rest of the pool |
| `Limits.OutsideChildPasses` | state/state.go:486-508 | The same with a transaction from outside the pool, which gets the verdict passed |
| `Limits.ConflictNeedsCache` | state/state.go:1382-1393 | A concrete valid machine and block, with two caches that both show only what is there: with one the block goes through, with the other it is refused |
| `StateSteps.WalkFinal` | state/state.go:1031-1050 | A walk, complete or failed part way, leaves the applied blocks at and below the irreversible height |
| `StateSteps.WalkedReplays` | state/state.go:652-712 | A completed walk of the machine below, valid at its start, ends in the replay of its destination, valid or not |
| `StateSteps.WalkedReplaysIff` | state/state.go:652-712 | From the replay of any chain it ends with the total of its destination, and with its table if and only if every key the redone blocks do not touch was first touched by the undone blocks as recorded |
| `StateSteps.WalkedValidIff` | state/state.go:652-712 | With the checks the walk has made, it leaves a valid machine valid if and only if every redone block spends nothing twice and declares frozen heights as recorded |
| `StateSteps.WalkGoesIff` | state/state.go:652-712 | A walk of a valid machine is completed whatever the cache has dropped, if and only if every undone block is above the irreversible height, the window is not negative if there is anything to redo, and every redone block is sure to go through on its parent's table |
| `StateSteps.ValidBlockSureIff` | state/state.go:1157-1207 | Of a valid block that is so if and only if none of its transactions is refused, it spends nothing frozen, and no fee that it pays itself |
| `State.State.constructor` | state/state.go:82-147 | An empty machine on a ledger |
| `State.State.SpendInputs` | state/state.go:832-841 | Takes the inputs from table, batch cache, cache and balances exactly, the cache never showing more than the batch |
| `State.State.MakeOutputs` | state/state.go:842-875 | Puts exactly the lasting outputs into table, batch cache, cache, balances and, for a coinbase, the total |
| `State.State.DoTxInternal` | state/state.go:817-876 | Returns the verdict of the check; on success the batch is the transaction done, otherwise nothing changes |
| `State.State.UndoTxInternal` | state/state.go:976-1029 | The batch, total and balances are the transaction undone |
| `State.State.PayFee` | state/state.go:1221-1242 | The fees go to the proposer, zero ones too |
| `State.State.UndoPayFee` | state/state.go:1123-1138 | The fees are taken back from the proposer |
| `State.State.PlayTx` | state/state.go:486-508 | A transaction that is not applied is stopped exactly for being refused or for the verdict of its check; otherwise it is done and its fees are paid |
| `State.State.PlayBlockTxs` | state/state.go:486-508 | Stops exactly at the first transaction that is refused or fails its check, with that error, the check being made with what the cache had in each turn and the batch had made; otherwise the result is the specified state, and if the cache showed only what was there it did so in every turn |
| `State.State.UpdateNextIrreversibleBlockHeight` | state/meta/meta.go:365-391 | Fails exactly for a negative window, and gives the next irreversible height |
| `State.State.DoTx` | state/state.go:336-347 | Accepts exactly an unknown ordinary transaction of no block that passes its check while the pool has room, and then submits it |
| `State.State.UndoBackward` | state/state.go:627-634 | Undoes the listed transactions from the last to the first |
| `State.State.RollBackUnconfirmedTx` | state/state.go:614-649 | Leaves the rolled back machine and tells exactly the txids undone |
| `State.State.AddInputs` | state/state.go:1357-1368 | Refuses exactly a transaction that spends a key twice or one already in the set, and otherwise adds its keys |
| `State.State.SpendsTwice` | state/state.go:1357-1368 | True exactly when two transactions, or one, spend a key twice |
| `State.State.VerifyBlockTxs` | state/state_verify.go:902-936 | Refuses exactly a block with an invalid transaction from outside the pool, coinbases that were not generated aside |
| `State.State.UndoConflicts` | state/state.go:1382-1393 | Undoes each listed conflict once |
| `State.State.ApplyBlock` | state/state.go:486-530 | Plays and stores a block from a given table on, or stops with exactly the first error of its transactions, or else for a negative window, and then nothing stored has changed |
| `State.State.PlayBlock` | state/state.go:457-539 | Goes through, or stops with a given error, exactly as `Passing.PlayResultIff` and the theorems on the checks say; on success the machine has played the block over the pool; on failure nothing stored has changed |
| `State.State.PlayAndRepost` | state/state.go:457-539 | The same for a stored child of the applied block without double spends, after finding the conflicts; otherwise the error is exactly the missing block, the wrong parent or the double spend, in this order |
| `State.State.PlayMinedBlock` | state/state.go:403-452 | Stops exactly with the first verdict against a coinbase or generated transaction, or for a negative window; on success the machine has played its own block; on failure nothing stored has changed |
| `State.State.PlayForMiner` | state/state.go:386-452 | The same for a stored child of the applied block, otherwise exactly the errors for a missing block or a wrong parent; if the pool transactions are those without either flag, the block has passed what `Overlay.MinedReplaysIff` asks for |
| `State.State.UndoBlockTxs` | state/state.go:1055-1073 | The transactions of a block undone from the back, the skipped ones but for their fees |
| `State.State.UndoBlockForWalk` | state/state.go:1039-1093 | Undoes a block exactly when it is above the irreversible height and has a stored parent |
| `State.State.DoBlockForWalk` | state/state.go:1157-1207 | Succeeds exactly if no transaction of the block is refused or fails its check in its turn and the window is not negative; then the block is done and its transactions, if their txids differ, have passed their checks; otherwise nothing stored has changed |
| `State.State.ProcUndoBlkForWalk` | state/state.go:1031-1103 | Undoes the listed chain block by block, exactly if all of it is above the irreversible height; where it stops is a state of a run |
| `State.State.DoNext` | state/state.go:1150-1215 | The next block goes through and the walk goes on, or the walk stops there |
| `State.State.ProcTodoBlkForWalk` | state/state.go:1141-1219 | Does the listed chain from below exactly if every block goes through in its turn and, unless there is none, the window is not negative; where it stops is a state of a run |
| `State.State.WalkBlocks` | state/state.go:689-704 | Undoing then redoing gives the specified machine, with every redone block checked, exactly if all of them get through |
| `State.State.FindRoute` | state/state.go:679-687 | Finds the blocks to undo and redo exactly if both ends are stored |
| `State.State.WalkRoute` | state/state.go:689-704 | The same along a route |
| `State.State.WalkAway` | state/state.go:670-712 | Rollback, undo and redo to the destination, completed exactly if both ends are stored, every undone block is above the irreversible height, the window is not negative if there is anything to redo, and every redone block goes through; a failure leaves a state of a run |
| `State.State.Walk` | state/state.go:652-712 | A walk to the latest block always succeeds and does nothing; any other succeeds exactly as before, and ends in the specified machine with every redone block checked, or fails in a state of a run |
| `State.State.GetBalance` | state/utxo/utxo.go:524-565 | The cached balance or the sum of the address's entries, which is then cached |
| `Merkle.GetLeafSize` | ledger/ledger_hash.go:17-23 | A power of two that holds all leaves and is less than twice as large |
| `Merkle.LastIsRoot` | ledger/ledger_hash.go:66-82 | The last cell of a joined array is the root of every level that lies in it |
| `Merkle.JoinInto` | ledger/ledger_hash.go:66-82 | Filling the array two by two joins every inner cell, and the arena never runs out |
| `Merkle.MakeMerkleTree` | ledger/ledger_hash.go:51-84 | The array has 2n-1 cells, starts with the txids, and ends in the root of level-by-level pairing with an odd last node doubled |
| `Merkle.VerifyMerkle` | ledger/ledger_hash.go:205-217 | Accepts exactly the root of a non-empty list |
| `Compact.RoundTrip` | consensus/pow/common.go:27-78 | Below 2^255 decoding an encoding raises no flag and loses at most one part in 2^15 |
| `Compact.FlagsIff` | consensus/pow/common.go:58-78 | Decoding an encoding raises a flag exactly from 2^255 on |
| `Compact.FieldsDecode` | consensus/pow/common.go:58-78 | Size byte, sign bit and word decode to the word shifted by the size, negative exactly if the sign is set and that is not zero |
| `Compact.OverflowIff` | consensus/pow/common.go:64-77 | Overflow is reported exactly for nonzero values with a size byte above 32 |
| `Compact.DecodedIsExact` | consensus/pow/common.go:27-78 | A decoded value goes through encoding unchanged |
| `Compact.OrderKept` | consensus/pow/common.go:27-78 | Encoding, and decoding an encoding, keep the order of numbers |
| `Retarget.ClampBounds` | consensus/pow/pow.go:362-372 | The timespan is held between a quarter and four times the expected one, and is zero exactly for an expected one below four and none elapsed |
| `Retarget.BitsMoveByTwo` | consensus/pow/pow.go:391-401 | In leading-zero mode the bits move by at most two, from any previous ones |
| `Retarget.BitsFollowPace` | consensus/pow/pow.go:391-401 | A faster pace never lowers the bits and a slower one never raises them |
| `Retarget.ScaleFollowsPace` | consensus/pow/pow.go:374-377 | In compact mode a faster pace never raises the value, a slower one never lowers it, and the expected one leaves it |
| `Retarget.FewerBitsEasier` | consensus/pow/pow.go:418-423 | In leading-zero mode fewer bits are never harder to meet |
| `Retarget.CompactProofedIff` | consensus/pow/pow.go:405-417 | In compact mode bits that carry a flag, or decode to less than the floor, are accepted for no hash, and all others for exactly the hashes up to their value |
| `Retarget.ProofedIff` | consensus/pow/pow.go:418-423 | In leading-zero mode, for up to 256 bits, a hash is accepted if and only if it has that many leading zero bits or is the least number that has one less |
| `Retarget.FloorNeverRejects` | consensus/pow/pow.go:374-388 | New bits from a scaled value below 2^255 are never turned down by the floor or the flags |
| `Retarget.TooEasyRejectsAll` | consensus/pow/pow.go:405-417 | From 2^255 on no hash is accepted for the new bits |
| `Retarget.NextAcceptedIff` | consensus/pow/pow.go:374-388 | In compact mode, from bits without a flag, only the hash decides about the new bits if and only if the scaled difficulty is below 2^255; otherwise none is accepted |
| `Retarget.SlowBlocksStopMining` | consensus/pow/pow.go:374-388 | Bits 0x207fffff and blocks four times too slow: no hash is accepted for the next bits |
| `Retarget.TargetBounded` | consensus/pow/pow.go:323-402 | In leading-zero mode the target computed for the next block is at most the cap, and within two bits of the previous one unless it is the cap |
| `Retarget.BitsFollowTime` | consensus/pow/pow.go:351-401 | By the timestamps of the headers, in leading-zero mode: blocks that took at least the expected time do not raise the target and blocks that took at most that do not lower it, unless it is the cap; from two bits on and up to the cap it moves by at most two, and falls by exactly two for blocks four times too slow |
| `Retarget.ValueFollowsTime` | consensus/pow/pow.go:351-388 | By the timestamps, in compact mode from a value not below the floor: slow blocks do not lower the difficulty value unless its bits carry a flag, fast blocks neither raise it nor bring it below the floor, and blocks four times too slow raise it fourfold to within one part in 2^15 |
| `Retarget.TargetCases` | consensus/pow/pow.go:323-349 | The default up to the first gap and where tip or parent are not known, an error for unreadable bits, and between retargets the target of the block before the tip |
| `Retarget.TargetCutOff` | consensus/pow/pow.go:351-360 | The default where the known headers do not reach back over the gap |
| `Retarget.DivideByZeroIff` | consensus/pow/pow.go:362-395 | A retarget divides by zero if and only if no time is expected, as with a gap of one, or in leading-zero mode less than four seconds are expected and less than one has passed |
| `Retarget.TargetsAlternate` | consensus/pow/pow.go:323-349 | In a chain whose blocks carry the targets computed for them, from one retarget to the next the blocks at even distance have the new target and the others that of the block before it |
| `Retarget.WindowSteadyIff` | consensus/pow/pow.go:323-349 | The target is steady from one retarget to the next if and only if it did not change there |
| `Retarget.RetargetSkipsNext` | consensus/pow/pow.go:323-349 | A concrete chain whose target rises at height four and is back at the old one at height five |
| `Retarget.TargetAcceptedIff` | consensus/pow/pow.go:323-402 | In compact mode only the hash decides about the target computed for the next block if and only if the scaled difficulty is below 2^255 |
| `Retarget.RefreshDifficulty` | consensus/pow/pow.go:323-402 | The loop back over headers finds the target of the specification, to which `Retarget.TargetCases`, `Retarget.TargetCutOff`, `Retarget.BitsFollowTime`, `Retarget.ValueFollowsTime`, `Retarget.TargetsAlternate` and `Retarget.TargetAcceptedIff` apply |
| `Lru.LruCache.constructor` | common/cache/lru.go:24-30 | An empty cache of the capacity |
| `Lru.LruCache.MoveToFront` | common/cache/lru.go:38-46 | The key becomes the last one used, and the list stays in order of use |
| `Lru.LruCache.Get` | common/cache/lru.go:38-46 | The latest value of a cached key, which counts as a use |
| `Lru.LruCache.PushFront` | common/cache/lru.go:63-65 | A new key becomes the last one used |
| `Lru.LruCache.Add` | common/cache/lru.go:54-72 | The value is cached, if there is room for any; when there is no room for one more the key used longest ago goes |
| `Lru.LruCache.Evict` | common/cache/lru.go:75-83 | Drops exactly the key used longest ago |
| `Lru.LruCache.Del` | common/cache/lru.go:88-95 | Drops the key and nothing else |
| `Lru.LruCache.EnlargeCapacity` | common/cache/lru.go:116-127 | Only ever enlarges the capacity |
| `Lru.SizeWithin` | common/cache/lru.go:54-72 | List and map have the same size, so no more keys are cached than the capacity allows |
| `HeaderCache.HeaderStore.FetchBlock` | ledger/ledger.go:384-405 | The cached header or that of the table, which is then cached; for a block the batch has not touched that is a read of the table |
| `HeaderCache.HeaderStore.SaveBlock` | ledger/ledger.go:357-371 | The cache goes on showing only what the batch will store |
| `HeaderCache.HeaderStore.RemoveBlock` | ledger/ledger.go:1160-1168 | Likewise when a block is removed |
| `HeaderCache.OrderlyReads` | ledger/ledger.go:357-405 | If no block is fetched after being saved in the same batch, and a removed block fetched again is removed again, each fetch through the cache is a read of the table, and the written batch leaves the cache in step |
| `CachedLedger.ConfirmOrderly` | ledger/ledger.go:435-478 | The fetches and saves of a confirm, trunk switches included, are in such an order |
| `CachedLedger.ConfirmStaged` | ledger/ledger.go:640-700 | They leave exactly the headers of the confirmed ledger in the batch |
| `CachedLedger.CutLater` | ledger/ledger.go:1149-1177 | So are those of a truncate, which fetches shared ancestors again after removing them |
| `CachedLedger.CutStaged` | ledger/ledger.go:1149-1222 | They leave exactly the headers of the truncated ledger in the batch |
| `CachedLedger.FetchIsRead` | ledger/ledger.go:357-405 | Along every history of confirms and covered truncates with queries in between, whatever is fetched through the cache is what the table holds |
| `CachedLedger.ConfirmReadsIff` | ledger/ledger.go:595-818 | After a confirm of a new block, every fetch through the cache is a read of the table if and only if the block was accepted, or the cache has no room at all |
| `CachedLedger.RefusedStaysCached` | ledger/ledger.go:694-722 | A concrete block with two coinbases is refused by the empty ledger, and after its accesses is found in the cache though the table is empty |
| `Accounts.IndexKeyInjective` | permission/base/def.go:50-53 | Index keys of different pairs differ as long as account names contain no separator |
| `Accounts.AccountKeyInjective` | permission/base/def.go:46-48 | Account keys of different names or chains differ |
| `Accounts.RawAccountIff` | permission/base/valid.go:24-42 | A raw account name is sixteen decimal digits |
| `Accounts.AclLimits` | permission/contract.go:177-214 | Under each rule its own list decides: up to 1024 entries are accepted and more are not, whatever the other list holds; without a rule or its list, or under another rule, nothing is |
| `Accounts.MembersIff` | permission/account.go:83-102 | The members of an accepted list are the weighted keys, or the keys of any of its sets |
| `Accounts.Registry.constructor` | permission/contract.go:18-24 | An empty registry reflects |
| `Accounts.Registry.DeleteWeighted` | permission/account.go:12-21 | Deletes exactly the index keys of the weighted members |
| `Accounts.Registry.PutWeighted` | permission/account.go:23-32 | Puts exactly the index keys of the weighted members |
| `Accounts.Registry.DeleteSets` | permission/account.go:34-45 | Deletes exactly the index keys of the members of all sets |
| `Accounts.Registry.PutSets` | permission/account.go:47-58 | Puts exactly the index keys of the members of all sets |
| `Accounts.Registry.Update` | permission/account.go:83-102 | Does that for the members that count under the rule of the list; no list, no change |
| `Accounts.Registry.UpdateAK2AccountReflection` | permission/account.go:104-112 | The members of the new list replace those of the old one |
| `Accounts.Registry.NewAccount` | permission/contract.go:26-86 | Succeeds exactly for a well-named new account with a valid list, stores it, and the index stays exact |
| `Accounts.Registry.SetAccountACL` | permission/contract.go:88-133 | Succeeds exactly for a known account and a valid list, stores it, and the index stays exact |
| `Ranges.PrefixIff` | storage/range.go:20-32 | A key has the prefix exactly when it lies in the range, for every prefix |
| `Ranges.BytesPrefix` | storage/range.go:20-32 | The backward loop finds that range |
| `Ranges.PrefixedExact` | storage/quickiter.go:10-25 | The keys with the prefix are exactly those of the database, each once and in order |
| `Ranges.QuickIterator.constructor` | storage/quickiter.go:10-25 | With a middle key of the prefix, the keys to come are a rotation of those with the prefix |
| `Ranges.QuickIterator.FromStart` | storage/quickiter.go:20-22 | Without one, they are those with the prefix in order |
| `Ranges.QuickIterator.Next` | storage/quickiter.go:27-40 | Delivers every key exactly once, in order, and then no more |
| `Ranges.QuickIterator.Key` | storage/quickiter.go:43-45 | The key delivered last |

## Left out

- The key-value contract model (read and write sets) and its conflicts: only transfers of unspent outputs are modelled.
- Marked and modified transactions, for which the input check is skipped.
- Signature, block and contract verification; a transaction that fails it enters as a member of `invalid`, which is heeded where the program verifies it.
- When the cache of recent entries drops which of them: the model lets it drop any at any time, and records what it had (the ghost result `hots`).
- The order in which the pool lists its transactions is taken to be a dependency order (`Machine.DependencyOrder`); how the pool sorts is not modelled.
- `Mempool.Dfs`: follows spent outputs only; links by keys of the contract model and read-only links belong to that model.
- `Mempool.FindConflictByTx`: looks for the same output spent; conflicts by version of a contract key belong to that model.
- New txids are assumed of the blocks played over a pool, and for validity of all blocks (`Checked.NewOnPath`), since the ledger does not ensure them (`LedgerRecords.AcceptedAvoidsPathIff`); of blocks that passed their checks only what `Repeats.Named` says has to be taken on trust.
- The conflict search compares txid and offset of a spent output; the model compares its address too, which those two determine.
- Orphan and confirmed nodes of the pool, its size limits and expiry; a full pool enters as the parameter `full`.
- Recovery of rolled back transactions after a walk: it submits them again one by one.
- Truncation while walking (the pruning flag of a walk). A truncate to a block off the trunk is specified, but nothing is claimed of the trunk after it, nor of confirms that follow a truncate which left blocks above the tip.
- Header queries that run while a batch is being prepared: queries are made between operations.
- After a failure in the middle of a block, the total in memory, the cached balances and the cache of entries may have drifted from the table; claims about them are made for successful operations.
- The block body cache, which a trunk switch does not refresh; only fields that never change are read through blocks.
- The upper-case `HandleFork` of ledger/branch_manage.go, whose second loop has no measure.
- Locks, goroutines, metrics, the repost channel and temporary locks on outputs.
- Balances are summed by address; the program scans keys by the address as a prefix, which is the same as long as no address contains an underscore.
- `Merkle.GetLeafSize`: takes the base-two logarithm as exact, where the program rounds a 64-bit float; the two agree for fewer than 2^47 transactions.
- `Retarget.RefreshDifficulty`: a division by zero, which stops the program, is a result of its own (exactly when: `Retarget.DivideByZeroIff`).
- `Lru.LruCache.Get`: the list holds keys and the map values, where the program keeps pairs in list elements the map points to.
- Consensus other than proof-of-work arithmetic, the chained BFT state machine, contracts, networking and generated code.

# Verification of the cph-service chain explorer

cph-service copies a blockchain that may reorganise into two SQL tables and
answers wallet queries from them. This project models its logic in Dafny and
proves what the service promises, over every run and every input.

| file | part of the service |
|---|---|
| `Chain.dfy` | what the gateway serves, and what the follower takes for granted about it |
| `Decimal.dfy` | big integers stored as decimal text |
| `Tables.dfy` | `t_block` and `t_transaction`, and what DropBlok, WriteBlock and WriteTransactions do to them |
| `Follower.dfy` | SyncOneBlock and the loop of StartSyncLastBlock as a state machine with failures, lost commits, panics and restarts |
| `Restarts.dfy` | what `MAX(F_block) - 1` yields and exactly when a restart from it is safe |
| `Runs.dfy` | cursor bounds, uniqueness, prefix safety and crash-restart safety over whole runs |
| `Agreement.dfy` | rows are faithful, blocks and transactions agree, fees are conserved, no duplicate insert |
| `Convergence.dfy` | the loop walks back to the fork point and climbs, and ends exactly when the chain reaches its target |
| `Strays.dfy` | transactions stranded without their block: what they cost, and that the blocks converge all the same |
| `Limits.dfy` | for each assumption, exactly when the code keeps the property without it, and runs in which it does not |
| `Persistence.dfy` | how long damage lasts, and runs in which a lost COMMIT or a two-view read does it |
| `Syncer.dfy` | the follower as an object with mutable tables, each method proved equal to the functions above |
| `Paging.dfy` | pending transactions merged with database rows; recent blocks; queries by type |
| `MiningDays.dfy` | a date range cut into one-day queries |
| `Stats.dfy` | the node collector and its connection sessions |
| `Rewards.dfy` | reward totals, kept write by write and recomputed |
| `Common.dfy` | options and sums over finite maps |

`dafny verify dfyconfig.toml` checks everything.

## How the follower is modelled

A state is the cursor `block_now`, the height the inner loop climbs to (if it
is running) and the two tables. A step is a failed poll, a poll with any
reported height, one SyncOneBlock, a recovered panic (the cursor survives) or a
process restart from `MAX(F_block) - 1`. In a step any RPC or database call may
fail: DropBlok may fail before it changes anything, lose transaction updates or
die half-way; reads may fail; WriteBlock may fail; WriteTransactions may stop
after any subset of the block's transactions. Status updates may also be lost
without the code noticing, because the result of COMMIT is discarded
(src/model/t_block.go:140, src/model/t_transaction.go:119): the retirement of a
block or a transaction, and the revival of either. Between steps the chain may
grow, shrink or switch branch freely, also between the two reads of one
SyncOneBlock. A process killed inside a call is that call stopped at the same
point, followed by a restart.

The shrink branch is kept as it is in the code: it decrements the cursor and
then drops the new cursor height, so the old top row stays NORMAL.

Assumed throughout: a hash determines a block, `GetBlockByNumber(h)` returns
number h, and blocks 0 and 1 are the same on every branch (`BlocksConsistent`,
`FetchServed`). Everything else is assumed only where it is needed, as a
predicate in the lemma, and `Limits.dfy`, `Restarts.dfy` and `Agreement.dfy`
give the exact condition for each:

| assumption | needed for | exact condition |
|---|---|---|
| `SeesOneChain`: block and parent come from one chain view | prefix safety, crash-restart safety, convergence, block paging | `Limits.LinkedIffOneView` |
| `DropSaved`: no COMMIT retiring a block before another is written is lost | uniqueness, prefix safety, crash-restart safety, convergence of the blocks, block paging | `Limits.UniqueIffRetired` |
| `TxsConsistent`: a transaction hash has one height and one receipt; blocks 0 and 1 carry none | all transaction properties | `Limits.AgreementIff` |
| `Reliable`: a DropBlok that starts changing rows saves every change, though it may die then, and block revivals are saved | no stray transactions, no duplicate insert | `Limits.OwnedIffNothingLost`, `Limits.OwnedIffRevived` |
| `AllSaved`: nor is a transaction's revival lost | agreement, fee conservation | `Limits.AgreementIff` |
| `CheckedRestarts`: the queries of `Restartable` come out right before a restart | prefix safety across restarts | `Restarts.RestartSafeIff` |
| `CountedRestarts`: so do the counts of `Counted` | agreement and fee conservation across restarts | `Agreement.RestartAgreeIff`, `Agreement.RestartFeesIff` |

Cursor bounds, parseable columns and the split of the type queries need none of
these, and faithful rows only `TxsConsistent`. A gateway that never reports below the cursor makes every restart a checked and
counted one (`Runs.CrashRestartSafety`, `Agreement.ShrinkFreeIsCounted`).

## What does not hold

- A restart after the chain shrank can skip a height: on every chain of height N >= 4 there is a run whose only mishap is one restart and which ends with the cursor at N-1 and no NORMAL row at N-2 (`Limits.RestartAfterShrinkLosesHeight`). The height stays missing over every continuation in which the gateway reports nothing below the cursor, its chain keeps block N-1, and every restart finds MAX above N-1 (`Persistence.LostHeightStaysLost`).
- Such a restart can also lose transactions: on every chain of height N >= 5 whose block N-1 has transactions there is a run, with one stop inside WriteTransactions and one restart, that ends on an intact prefix with that block NORMAL and none of its transactions (`Limits.RestartLosesTransactions`). They stay lost over the same continuations (`Persistence.LostTransactionsStayLost`).
- Either loss is mended by the first restart that finds MAX at N-1 itself, as after a kill between DropBlok and the write (`Persistence.LowRestartMends`, `Persistence.KilledAfterDrop`).
- If the chain shrinks below the target while the inner loop is climbing, the loop never ends: the height is not polled again, so the shrink branch is never reached (`Limits.StuckRun`; the loop ends exactly when the chain reaches the target, `Convergence.LoopEndsIff`). A recovered panic frees it (`Convergence.PanicFrees`).
- An idle follower above a chain of height N >= 2 shrinks to N and rests there with no NORMAL row at N until the chain grows (`Limits.ShrinkLeavesHole`).
- A lost COMMIT is not noticed. Retiring a block, it leaves two NORMAL rows at one height (`Limits.UniqueIffRetired`, a run in `Persistence.DoubledRun`). Reviving a block, it strands its transactions (`Limits.OwnedIffRevived`): where the chain's block contains a stray, inserting it fails, which costs one pass (`Strays.StrayFailsOnce`); other strays stay until that height is dropped again (`Strays.StrayStays`).
- A reorganisation between the two reads of one SyncOneBlock leaves a row that does not fit on the one below and is not repaired while the follower stays above it (`Limits.LinkedIffOneView`, a run in `Persistence.TwoViewRun`).
- A height at which every branch has a block that cannot be stored, such as one with a mortgage or redeem call of fewer than 64 characters of input, is never passed, however often the process is restarted (`Chain.TypeOf`, `Limits.NeverPassesUnwritable`).
- Pages of pending plus stored transactions are right on every page exactly when the pending list fits on one page (`Paging.AllPagesRightIff`); with more pending than that the first page panics. The reported count is that of the database rows only, and 0 when pending transactions fill the page (`Paging.GetByAddrAndType`).
- Two connections that say hello for one node share its entry, and the first to leave deletes it (`Stats.DoubleHello`; exactly when, `Stats.UnwindExactIff`).

## Model

| member | source | states |
|---|---|---|
| `Decimal.ParsePrint` | src/sync/sync.go:254-262 | parsing the printed form of any integer, negative ones included, gives it back |
| `Decimal.PrintInjective` | src/sync/checkreward.go:49-53 | two stored amounts are equal as text only when they are equal as numbers, so comparing columns compares amounts |
| `Decimal.ParseAccepts` | src/sync/syncblock.go:55-59 | a column is readable exactly when it is an optional sign followed by one or more digits |
| `Decimal.ParsePositional` | src/sync/syncblock.go:55-59 | what is read is the sum of each digit times the power of ten for its place, with the sign in front |
| `Decimal.PrintExact` | src/sync/sync.go:260-262 | what is stored is exactly the base-ten form: the digits without a leading zero whose positional value the number is, between the powers of ten its length calls for |
| `Chain.TypeOf` | src/sync/sync.go:278-291 | type 3 exactly for calls of function 0x43794dda of contract 0x..81, 4 for 0x1e9a6950, 0 otherwise; the extension is 0x and the last 64 characters; it panics exactly when such a call has fewer |
| `Common.SumMapRemove` | src/sync/sync.go:337-343 | a fee sum does not depend on the order a Go map is iterated in |
| `Common.SumMapUnion` | src/sync/sync.go:337-343 | the sum over two sets of transactions without a common one is the sum of their sums |
| `Common.SumMapOne` | src/sync/sync.go:337-343 | the sum over one transaction is its own fee |
| `Tables.SmallTotals` | src/sync/sync.go:337-357 | a block without transactions is stored with 0 transactions and fees "0", one with a single transaction with its gas price times its gas used |
| `Tables.DropAt` | src/sync/syncblock.go:12-35 | a DropBlok that returns normally and whose update is saved clears its height; it never touches the NORMAL row of another height, and ignores heights 0 and 1 |
| `Tables.PutKeeps` | src/sync/sync.go:293-315 | reviving or inserting a block over a height with no other NORMAL row keeps one NORMAL row per height, and the block is the row there |
| `Tables.PutTxsColumns` | src/sync/sync.go:253-264 | every fee ever written is the decimal form of an integer and every type written is 0, 3 or 4 |
| `Follower.SyncServed` | src/sync/sync.go:106-201 | whatever fails or is lost, every block row is a block the gateway served |
| `Follower.SyncRows` | src/sync/sync.go:106-201 | whatever else fails, the synced height keeps its row, loses it, or gets the fetched block over a matching parent; success means a matching parent and the block there unless its revival was lost; walking back means the parent differs |
| `Follower.SyncOthers` | src/sync/sync.go:106-201 | SyncOneBlock leaves the NORMAL row of every other height alone |
| `Follower.SyncSafe` | src/sync/sync.go:83-94 | one pass of the inner loop, with any failure or lost revival, keeps the hash-linked prefix below the moved cursor |
| `Follower.PollSafe` | src/sync/sync.go:63-81 | a poll, the shrink branch included, keeps the hash-linked prefix |
| `Restarts.MaxExists` | src/model/t_block.go:233-252 | the highest NORMAL height exists and is what the query yields, 0 on an empty table |
| `Restarts.CountBelow` | src/model/t_block.go:205-217 | there are at most n NORMAL rows below height n, and n exactly when no height is missing |
| `Restarts.RestartSafeIff` | src/sync/sync.go:40-48 | a restart stands on a linked prefix again exactly when there are MAX-1 NORMAL rows below MAX-1 and no row between the cursor and MAX names another parent than the row below it |
| `Restarts.NoStaleRestartable` | src/sync/sync.go:40-48 | without NORMAL rows more than one above the cursor these queries come out right, and the restart does not raise the cursor |
| `Runs.ColumnsAlways` | src/sync/syncblock.go:54-59 | in every run whatsoever every stored fee parses, so DropBlok's early exit is never taken, and every stored type is 0, 3 or 4 |
| `Runs.CursorBounds` | src/sync/connect.go:130-140 | in every run whatsoever, across walk-backs, shrinks, panics and restarts, the cursor stays between -1 and the larger of its start value and the greatest height reported |
| `Runs.StartBelow` | src/sync/sync.go:40-48 | a process that starts on any tables meets the start condition of these bounds with its own cursor |
| `Runs.UniquenessAlways` | src/sync/sync.go:295-315 | in every reachable state, after two-view reads, failures, shrinks and restarts, each height has at most one NORMAL block, as long as no retirement before a write is lost |
| `Runs.PrefixSafety` | src/sync/sync.go:51-102 | over every run from empty tables, restarted never or only when the queries come out right, heights 0..cursor-1 all have NORMAL rows, consecutive rows are linked by hash, and the row at the cursor is absent or linked |
| `Runs.CrashRestartSafety` | src/sync/sync.go:40-102 | while the gateway never reports below the cursor, with any number of restarts anywhere and any lost revivals, the NORMAL rows are exactly one hash-linked chain 0..m with m the cursor or one off it, and every restart is a checked one |
| `Runs.ShortIffRevivalLost` | src/sync/sync.go:304-314 | a sync that ends well leaves that chain ending at the new cursor, or one below it exactly when the block's revival was lost |
| `Agreement.StoredRowFaithful` | src/sync/sync.go:253-264 | in every run whatsoever every transaction row, NORMAL or FORK, carries its transaction's height, parties, value, gas price times gas used as the fee, type and extension |
| `Agreement.DropOwned` | src/sync/syncblock.go:28-64 | a finished DropBlok retires the block together with all its transactions and leaves none NORMAL at the height |
| `Agreement.NoStrayTransactions` | src/sync/syncblock.go:28-64 | in every run, restarted at will, a height without a NORMAL block has no NORMAL transactions |
| `Agreement.NoDuplicateInsert` | src/sync/sync.go:233-266 | in every run, restarted at will, also when retrying a half-finished WriteTransactions, no transaction about to be written has a NORMAL row, so an insert never meets the UNIQUE key |
| `Agreement.CompleteIffCounted` | src/sync/sync.go:351-357 | at any height the NORMAL transactions are the block's exactly when there are as many as F_txn says |
| `Agreement.RestartAgreeIff` | src/sync/sync.go:40-48 | a restart keeps agreement exactly when every NORMAL block between the cursor and MAX has as many NORMAL transactions as its F_txn says |
| `Agreement.RestartFeesIff` | src/sync/sync.go:40-48 | and keeps fees conserved under exactly the same condition |
| `Agreement.ShrinkFreeIsCounted` | src/sync/sync.go:72-81 | without a report below the cursor every restart meets that condition |
| `Agreement.TransactionAgreement` | src/sync/sync.go:232-273 | in every run whose restarts meet it, the NORMAL transactions at a height up to the cursor are exactly those of its NORMAL block |
| `Agreement.FeesIffCounted` | src/sync/sync.go:337-357 | at any height fees are conserved exactly when the count agrees |
| `Agreement.FeeConservation` | src/sync/sync.go:337-357 | F_fees of every synced NORMAL block is the sum of F_tx_fee over the NORMAL transactions at its height and F_txn is their number, through any drop and revive history |
| `Convergence.IterationVerdict` | src/sync/sync.go:165-186 | without failures a pass writes its block exactly when the row at the cursor is the chain's, and walks back otherwise |
| `Convergence.IterationProgress` | src/sync/sync.go:83-94 | every pass brings the loop exactly one pass closer to its end |
| `Convergence.Converges` | src/sync/sync.go:83-94 | against a fixed chain of height N the loop ends with the cursor at N, every height 0..N holding the chain's block and transactions, after exactly the walk back to the fork point plus the climb |
| `Convergence.LoopEndsIff` | src/sync/sync.go:83-94 | an inner loop already running with target T ends against a fixed chain of height N exactly when T <= N |
| `Convergence.ConvergesAfterAnyRun` | src/sync/sync.go:51-102 | whatever state the run left, idle below N or climbing to T <= N, the loop finishes that climb, polls, and ends with the tables equal to the chain |
| `Convergence.StoppedClimb` | src/sync/sync.go:85-90 | a pass that stops leaves the cursor; after an error the loop runs on with its target, after a recovered panic it is idle |
| `Convergence.PanicFrees` | src/sync/sync.go:51-63 | whatever a loop was climbing to, even a height the chain no longer has, a recovered panic makes it poll again, and then the tables become the chain's |
| `Strays.WritableIffNotBlocked` | src/sync/sync.go:239-266 | every transaction of a block can be written exactly when none of them has a NORMAL row at a height without a NORMAL block |
| `Strays.StrayFailsOnce` | src/sync/sync.go:239-270 | a stray the served block contains costs exactly one failed pass; the next retires everything at the height and ends with just the block's transactions |
| `Strays.StrayStays` | src/sync/syncblock.go:37-64 | strays the served block does not contain stay beside its transactions until that height is next dropped, which retires them |
| `Strays.AttemptVerdict` | src/sync/sync.go:83-94 | against a fixed chain a pass walks back off the chain, and on it finishes its height exactly when no stray is in the way |
| `Strays.BlocksConverge` | src/sync/sync.go:83-94 | whatever became of the transactions, the loop ends at N with the chain's block at every height, after exactly the walk back, the climb, and one more pass for each height climbed whose block contains a stray |
| `Strays.BlocksConvergeAfterAnyRun` | src/sync/sync.go:51-102 | so the blocks converge after every run in which no retirement before a write is lost, fetches are from one view and restarts are checked |
| `Limits.LinkedIffOneView` | src/sync/sync.go:115-183 | the row written is linked to the one below exactly when block and parent were read from one chain view |
| `Limits.UniqueIffRetired` | src/model/t_block.go:127-142 | a sync that writes keeps one NORMAL row per height exactly when the old row was retired (never at heights 0 and 1, and not when its COMMIT is lost), or is the block itself, or the new block's revival is lost too |
| `Limits.AgreementIff` | src/sync/sync.go:239-250 | a sync leaves exactly the block's transactions exactly when none of them has a row at another height or a lost revival, and none was stranded there |
| `Limits.OwnedIffRevived` | src/sync/sync.go:304-314 | a sync leaves no stray transactions exactly when the block's revival is not lost or it has no transactions |
| `Limits.OwnedIffNothingLost` | src/sync/syncblock.go:30-64 | retiring a block keeps the tables in agreement exactly when no transaction update is lost |
| `Limits.RestartAfterShrinkLosesHeight` | src/sync/sync.go:72-81 | on every chain of height at least 4 some run with shrinks and one restart ends with a missing height below the cursor |
| `Limits.RestartLosesTransactions` | src/sync/sync.go:40-48 | on every chain of height N >= 5 whose block N-1 has transactions some run with shrinks, one stop and one restart ends with that block NORMAL at the cursor and none of its transactions |
| `Limits.StuckRun` | src/sync/sync.go:83-90 | on every chain a climb to its top is reachable that, against any shorter chain, no number of passes ends |
| `Limits.ShrinkLeavesHole` | src/sync/sync.go:72-81 | an idle follower above a chain of height N >= 2 comes to rest at N with no NORMAL row there |
| `Limits.NeverPassesUnwritable` | src/sync/connect.go:111-128 | in every run whatsoever the cursor stays below a height at which every branch has a block that cannot be stored |
| `Persistence.FrozenRun` | src/sync/sync.go:106-183 | while the follower stays above a block it agrees with the chain on, all blocks and NORMAL transactions at and below that block stay as they are, right or wrong |
| `Persistence.LostHeightStaysLost` | src/sync/sync.go:72-81 | a height skipped by a restart stays missing over every continuation that stays up |
| `Persistence.LostTransactionsStayLost` | src/sync/sync.go:40-48 | so do transactions lost by a restart |
| `Persistence.LowRestartMends` | src/sync/sync.go:40-48 | a restart that finds MAX at the cursor's old height mends either loss: the next climb leaves the tables equal to the chain, transactions included |
| `Persistence.KilledAfterDrop` | src/sync/sync.go:111-119 | a kill between DropBlok and the write brings about such a restart |
| `Persistence.TwoViewRun` | src/sync/sync.go:115-130 | for every two chains that differ at a height, a run with one two-view read leaves an unlinked row above it that no continuation that stays up repairs |
| `Persistence.DoubledRun` | src/model/t_block.go:127-142 | for every two chains that part at a height of at least 2, a run with one restart and one lost COMMIT ends with two NORMAL rows there |
| `SyncerImpl.Syncer.constructor` | src/sync/sync.go:40-48 | a process on empty tables starts at -1 |
| `SyncerImpl.Syncer.FindBlockByHeight` | src/model/t_block.go:108-120 | finds the NORMAL row at a height, or says there is none |
| `SyncerImpl.Syncer.GetMaxBlockNumber` | src/model/t_block.go:233-252 | computes the highest NORMAL height, 0 on an empty table |
| `SyncerImpl.Syncer.DropBlok` | src/sync/syncblock.go:12-99 | row by row, with any failure or lost update, leaves the tables as the drop function says |
| `SyncerImpl.Syncer.RetireTransactions` | src/sync/syncblock.go:54-64 | retires exactly the NORMAL transactions at the height whose update is not lost; the early exit on an unreadable fee is never taken |
| `SyncerImpl.Syncer.WriteBlock` | src/sync/sync.go:293-375 | revives the row with this hash whatever its height, unless that is lost unnoticed, or inserts one with the fee sum and count: "0" and 0 without transactions, the one fee and 1 with a single one |
| `SyncerImpl.Syncer.SumFees` | src/sync/sync.go:337-343 | the loop's total is the fee sum in any iteration order |
| `SyncerImpl.Syncer.WriteTransaction` | src/sync/sync.go:233-270 | revives a FORK row, unless that is lost unnoticed, inserts a missing one, and fails on a NORMAL row, an empty hash or a type panic |
| `SyncerImpl.Syncer.WriteTransactions` | src/sync/sync.go:203-276 | in any order, writes just the transactions reached before the first failure whose write is saved, and reports success exactly when all are writable and none fails |
| `SyncerImpl.Syncer.SyncOneBlock` | src/sync/sync.go:106-201 | the code with its early returns does to tables and cursor what the state machine says |
| `SyncerImpl.Syncer.Poll` | src/sync/sync.go:63-83 | the head of the outer loop is the poll step |
| `SyncerImpl.Syncer.Climb` | src/sync/sync.go:83-94 | one pass of the inner loop is the sync step, an allowed one |
| `SyncerImpl.Syncer.CatchUp` | src/sync/sync.go:83-94 | the inner loop on a chain that stays put terminates with the tables equal to the chain, transactions included |
| `SyncerImpl.Syncer.Restart` | src/sync/sync.go:40-48 | a new process on the same tables is the restart step |
| `SyncerImpl.Syncer.React` | src/sync/sync.go:51-102 | one event makes the loop take the matching step if it can reach it; a panic leaves cursor and rows and makes the loop idle; a gateway that is down changes nothing |
| `SyncerImpl.Syncer.Follow` | src/sync/sync.go:32-104 | under any sequence of gateway answers, from one chain view or two, faults, panics and kills the code performs a run of the state machine made of the matching steps in order |
| `SyncerImpl.IdleAfterPanic` | src/sync/sync.go:51-63 | after a panic, whatever happened before, the loop is idle and the next report reaches it |
| `Paging.Concat` | src/api/transaction/get_by_addr_and_type.go:157-162 | appending element by element is concatenation |
| `Paging.WhereExact` | src/model/t_transaction.go:198-236 | a type query returns exactly the rows its WHERE clause selects, each as often as the table has it |
| `Paging.AnswerSelection` | src/model/t_transaction.go:204-219 | a type query lists all rows of its clause, type by type, and in table order |
| `Paging.GetByAddrAndType` | src/api/transaction/get_by_addr_and_type.go:46-89 | the branches on offset and size yield the merged page, its panic, the count, and each error exactly when it occurs; without pending transactions the page and count are those of the NORMAL rows, in table order, that types 0 to 5 stand for (either party; from, kind 0; to, kind 0; kind 3; kind 4; kind 3 or 4), and any other type is an error |
| `Paging.ListedOnSomePage` | src/api/transaction/get_by_addr_and_type.go:54-86 | over all pages a type lists exactly the rows of the table it stands for |
| `Paging.PageRightIff` | src/api/transaction/get_by_addr_and_type.go:63-86 | a page equals the slice of pending ++ stored exactly when all pending lie before it, or it is the first page and they fit |
| `Paging.AllPagesRightIff` | src/api/transaction/get_by_addr_and_type.go:54-86 | every page is right exactly when the pending list fits on one page |
| `Paging.PagesTile` | src/api/transaction/get_by_addr_and_type.go:54-55 | the first n pages are the first n * size elements of the list, or all of it, without gap or repeat |
| `Paging.ListingHeight` | src/model/t_block.go:144-153 | when the NORMAL rows are the chain 0..m, row i of the descending listing is height m - i |
| `Paging.ListingLength` | src/model/t_block.go:205-217 | and the count of NORMAL rows is m + 1 |
| `Paging.GetBlocks` | src/api/block_query/get_blocks.go:57-87 | the count and exactly the requested page, or a parameter error |
| `Paging.BlockPaging` | src/api/block_query/get_blocks.go:62-87 | after any run whose gateway never reports below the cursor, page i lists exactly heights m-(i-1)*size downward to 0, and the count is m + 1, with m the cursor or one off it |
| `Paging.WhereCount` | src/model/t_transaction.go:221-227 | the count a type query reports is the number of stored rows its WHERE clause selects |
| `Paging.TypeQueriesSplit` | src/model/t_transaction.go:204-223 | on the tables of any run whatsoever, in any order, the reported counts satisfy ALL = FROM_ME + TO_ME - self-transfers + 3OR4, and 3OR4 = MORTGAGE + REDEEM |
| `MiningDays.BetweenSplit` | src/model/t_block.go:254-266 | adjacent time windows partition the rows of the window they make up |
| `MiningDays.BetweenExact` | src/model/t_block.go:254-266 | the query returns exactly the rows with a timestamp in the window, each as often as the table has it |
| `MiningDays.AmountsAre` | src/api/mining/get_addr_mining_rewards.go:86-97 | rewards are read from F_reward and fees from F_fees |
| `MiningDays.BlocksByDate` | src/api/mining/get_mined_block_by_addr_and_date/get_mined_block_by_addr_and_date.go:63-92 | for midnights at most 8640000 seconds apart the per-day queries return each block of [start+off, end+86399+off] as often as the table has it and no other, day after day, in at most 101 queries; any other range is a parameter error |
| `MiningDays.SumDay` | src/api/mining/get_addr_mining_rewards.go:81-99 | a day's sums, or failure exactly when an amount cannot be read |
| `MiningDays.RangeConserves` | src/api/mining/get_addr_mining_rewards.go:75-113 | despite skipped days the reported rewards and fees sum to those of all blocks in the whole range |
| `MiningDays.ReportExact` | src/api/mining/get_addr_mining_rewards.go:101-112 | each entry gives exactly its day's rewards, fees and block count, entries are in order of days without repeats, and a day of the range is listed exactly when it has a reward or a fee |
| `MiningDays.RewardsByDay` | src/api/mining/get_addr_mining_rewards.go:65-113 | a parameter error exactly on an invalid range, an inner error exactly when an amount in the range cannot be read, else the report of every day |
| `Stats.Collector.Collect` | src/statistics/stats/collector.go:38-80 | an accepted hello adds or replaces its node, a disconnect removes it, nothing else changes the map, with the error in each case; the map stays what the reports so far amount to |
| `Stats.Collector.Get` | src/statistics/stats/collector.go:83-89 | finds a node exactly when, over all reports so far, its last accepted hello has no later disconnect, and with that hello's info |
| `Stats.Collector.List` | src/statistics/stats/collector.go:92-101 | lists exactly the IDs whose last accepted hello has no later disconnect, each once |
| `Stats.Collector.Join` | src/statistics/stats/server.go:69-158 | an undisturbed session makes exactly the reports of the messages it reads, in order, then its disconnects, last first, and leaves the map as the interleaved machine does: without exactly the IDs whose hello it accepted, every other node as it was |
| `Stats.Collector.Handle` | src/statistics/stats/server.go:93-156 | one frame is reported and moves the session as one step of the machine does; a frame without payload is decoded over the previous one |
| `Stats.SessionIsRun` | src/statistics/stats/server.go:69-158 | a session is a run of the interleaved machine, beside any other connections |
| `Stats.SessionAccepts` | src/statistics/stats/server.go:94-107 | it takes away the IDs it owed and those whose hello it accepts, and no other |
| `Stats.Membership` | src/statistics/stats/collector.go:47-77 | over every trace of reports an ID is present exactly when its last accepted hello has no later disconnect, with that hello's info |
| `Stats.NoLeakedNode` | src/statistics/stats/server.go:94-107 | over every interleaving of any number of connections each node is owed a disconnect by an open connection, so when all have ended the map is empty |
| `Stats.UnwindExactIff` | src/statistics/stats/server.go:102-104 | running a deferred disconnect keeps the map equal to what open connections owe exactly when nobody else, and no earlier hello of the connection, owes that ID |
| `Stats.DoubleHello` | src/statistics/stats/server.go:94-107 | for every accepted hello there is an interleaving in which a node is gone although an open connection still owes its disconnect |
| `Stats.ExactRun` | src/statistics/stats/server.go:94-107 | when no hello names an ID still owed, the map is exactly what open connections owe |
| `Rewards.MinerRewards.WriteMinerRewards` | src/sync/sync.go:377-404 | the stored total of every miner stays the sum of the rewards written for it, no other row changes, and the fee column is written only on creation |
| `Rewards.TotalsStep` | src/model/t_miner_reward.go:71-91 | raising one miner's stored total by the reward keeps every miner's total equal to its written rewards |
| `Rewards.WrittenAdds` | src/sync/sync.go:392-395 | the written rewards of two stretches add up, each write counting its own reward |
| `Rewards.MinedByExact` | src/sync/checkreward.go:33-36 | the recomputation looks at exactly the blocks of the miner with timestamps from 0 to 9540364631 |
| `Rewards.CheckMiner` | src/sync/checkreward.go:38-58 | updates the total to the sum over the blocks, or stops exactly when an amount cannot be read |
| `Rewards.CheckReward` | src/sync/checkreward.go:32-63 | a full pass sets every total; a pass that stops leaves every row untouched or checked |
| `Rewards.CheckRewardSettles` | src/sync/checkreward.go:32-63 | after a pass every total is the sum over the miner's NORMAL blocks, the other column is as it was, and a second pass changes nothing |

## Left out

- Tables.DropAt: columns copied verbatim or set by a clock (F_timestamp, F_gas_used, F_gas_limit, F_create_time, F_modify_time) are not in the rows, because no property depends on them.
- SyncerImpl.Syncer.Follow: sleeps and logging are left out; a startup whose MAX query fails exits the process and takes no step; `GLastBlock` is written and never read by the loop; events in which the retirement before a write is lost are excluded, because rows carry no F_id and the query for two NORMAL rows at one height picks by it (Limits.UniqueIffRetired covers that step).
- SyncerImpl.Syncer.FindBlockByHeight: takes any NORMAL row at the height instead of the one with the smallest F_id, which is the same where uniqueness holds.
- Chain.TypeOf: hashes are modelled by their identity and whether they are empty; addresses and inputs are text.
- Paging.GetByAddrAndType: the pending list is a parameter, with the case-insensitive address filter that builds it; database errors of the two queries and the copying of fields into the reply are not modelled; the table is one fixed ordered list across pages, although the order by timestamp alone leaves ties open.
- Paging.GetBlocks: database errors end the request and are not modelled.
- MiningDays.BlocksByDate: database errors end the request and are not modelled; start and end are given as seconds, date parsing is not modelled.
- MiningDays.RewardsByDay: the same; the decimal text of the reply is covered by Decimal.ParsePrint.
- MiningDays.BetweenSplit: a miner's rows are any list; the follower's own rows leave F_miner and F_reward unset (src/sync/sync.go:352 and 356 are commented out), so on tables it alone filled these queries, and Rewards.CheckReward, find no block for a non-empty address.
- Stats.Collector.Collect: statistics fields are not modelled, because the code changes a copy that is never stored back; LastSeen is a clock reading.
- Stats.Collector.Join: JSON decoding is a parameter: a payload decodes to a hello, to a report naming a node, or to nothing; a message without payload reuses the previous one, as the reused variable does.
- Rewards.MinerRewards.WriteMinerRewards: F_total_fees has no invariant to state, because the code adds the fees to the reward total and never writes the column again.
- The gateway, gorm, MySQL, redis, websocket and HTTP libraries, except for what their calls return.
- Handlers that only copy fields or forward a call, the totals of the last 24 hours, the rate loop in floating point, and the day-reward cache, which its caller divides in place: they have no hard property.
- The message codec, configuration, random strings, MD5 and date formatting.

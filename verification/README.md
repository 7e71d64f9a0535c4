# An address index over a reorganising chain, verified

The repository keeps a Postgres index of a sidechain: blocks, transactions, outputs with their spend
marks, and a replaceable snapshot of the node's mempool. A sync loop follows the node through
reorganisations, and an Esplora-style API answers from the tables. This project models that core in
Dafny and proves what the rest of the system relies on.

* `Rows`, `Sums`: the values a row holds, and finite sums over maps.
* `Ledger`, `Undo`: the confirmed tables, one `Apply`, one `Rollback`, the structural invariant, and when
  the predicate-based rollback inverts any run of applies.
* `Coins`, `Conservation`: the spend-annotated table against a plain UTXO set, and value conservation.
* `Prepare`: block and mempool listings to rows.
* `Coinbases`, `Stored`: when a block is accepted and its coinbase kept, and what every column of its rows holds.
* `Overlay`, `Takeover`, `Mining`, `Balances`, `Snapshots`, `Runs`: the mempool laid over the ledger; what a
  block, and a whole run of blocks, taking over unconfirmed payments changes; balances, fees and `first_seen`
  over whole runs.
* `Stores`: the store as a class over its tables. Each method is proved against the functions above.
* `Sync`, `Convergence`, `Syncers`: the sync protocol as values and states, convergence and path
  independence, and the loop itself as a class over a node that may fail or move at any call. Every failed call
  and every interruption is counted in ghost state, so a pass in which nothing fails is one the count did not move in.
* `Serving`: which chains a pass can follow to the end.
* `Lineage`: what the index holds when the node moves inside a pass, and what later passes make of it.
* `Paging`, `Histories`: ordered history and the `last_seen` cursor, and the rows behind the references over
  every run of the node's blocks.
* `OutPoints`, `Authorizations`, `Services`: outpoint keys and text, signature slices, and connection
  ownership under every interleaving.
* `Samples`, `Batches`, `Limits`: concrete blocks, runs of them, and for each need in the table below, a small
  input on which it is not met and the promise fails.

Each SQL transaction is one atomic step. Where an UPDATE may take either of two spends of one outpoint,
the choice is free (`Ledger.Picks`), and every theorem that does not ask for distinct spends holds for
every choice. The protocol lemmas take the step of one block as a parameter `step` that is `Lawful`, meaning
equal to the ledger's own; `Sync.ApplyAtLawful` supplies it.

What the code needs from its surroundings, and where each need is proved exact:

| need | exact statement | input without it |
|---|---|---|
| the node and the index share genesis | `Convergence.SharedGenesisIsExact` | `Limits.GenesisMismatch` |
| every applied header names the index tip below it | `Lineage.LinkageIsExact` | `Limits.MovedNodeStays` |
| no block spends an output already marked spent | `Undo.RollbackInvertsApply` | `Limits.RespendIsLost` |
| a snapshot fits the tip it is written over | `Overlay.ReplaceMakesConsistent` | `Limits.LateSnapshot` |
| a block that takes an unconfirmed coin also mines it | `Takeover.BlockTakesOver` | `Limits.TakenUnminedIsListed` |
| no unconfirmed transaction claims a coin before the block that makes it | `Takeover.BlockTakesOver` | `Limits.ClaimedDepositIsHidden` |
| a transaction's inputs cover its outputs | `Conservation.BlockConservesValue` | `Limits.UncoveredMints` |
| no earlier block listed a transaction with another fee than it pays when executed | `Snapshots.FeeStable` | `Limits.SkippedTradeKeepsFee` |
| no page boundary falls inside a block | `Paging.PagesCoverHistory` | `Limits.PageCutLoses` |
| the cursor of a page jumps over no indexed transaction, as it does when a txid was listed before | `Paging.PagesCoverExactly` | `Limits.RelistedJumps` |
| no two blocks name their coinbase alike, as unkeyed ones do that share a merkle root | `Coinbases.CoinbaseKept` | `Limits.SharedRootLosesCoinbase` |
| market funds outpoints are in packed form | `OutPoints.WireRoundTrip` | `Limits.UnpackedFundsDrift` |

The code and its comments disagree in two places, and the model follows the code. The comment where no fork is
found intends that nothing of the old chain survives, while the call keeps height 0
(`internal/index/sync.go:216-217`). The comment on the coinbase index says that it catches two blocks sharing a
merkle root instead of losing a row (`internal/store/migrations/001_initial.sql:41-44`), while the insert skips the
second row first (`internal/store/write.go:161-212`), so the index is never violated and the coin is lost.

## Model

| member | source | states |
|---|---|---|
| Ledger.AppliedSound | internal/store/write.go:74-103 | A block at the next height keeps heights 0..tip contiguous, the tip record on the top row, every row anchored to a block with its hash, spends no earlier than their output, and block hashes and coinbase positions unique, whatever the block carries and whichever spends are picked |
| Ledger.RolledBackSound | internal/store/write.go:319-355 | A rollback to any indexed height keeps the same invariant and moves the tip to that row |
| Ledger.PickUnique | internal/store/write.go:216-245 | When no outpoint is spent twice in a block, the UPDATE has one possible outcome |
| Undo.ApplyAllSound | internal/store/write.go:74-103 | The invariant and the height count over any run of accepted blocks |
| Undo.RunKeeps | internal/store/write.go:130-245 | What a run of blocks leaves of the earlier rows: blocks and transactions untouched, outputs changed only in spend marks and only where a block spends them, every new row above the start height |
| Undo.RollbackInvertsApply | internal/store/write.go:319-355 | Applying any blocks and rolling back restores all confirmed tables and the tip if and only if no rolled-back block spends a row already marked at the start; repeated transactions and unknown spends are allowed |
| Undo.MarksStay | internal/store/write.go:233-239 | A marked row stays present and marked under every later block |
| Coins.FirstRowsCarryFirstCoins | internal/store/write.go:161-212 | Of several creates of one outpoint in a block, the first one's coin is stored |
| Coins.TableRefinesUtxoStep | internal/store/write.go:83-90 | One block moves the unmarked rows as (coins + creates) - spends, if and only if no coin it creates and keeps is already held spent or held as a different coin |
| Coins.TableRefinesUtxoSet | internal/store/write.go:161-245 | Over a whole run the unmarked rows follow the fold of the plain UTXO step after every block, coins made and removed in one block included, if and only if every block's creates meet that condition |
| Coins.ValueConserved | internal/store/write.go:252-266 | Total unspent value is old value + creates outside transactions - removals outside transactions - fees on record, off by exactly the fees on record less the gaps between what transactions take and make; for new txids never below, and equal if and only if every transaction's inputs cover its outputs |
| Coins.FirstCoinIs | internal/store/write.go:161-212 | The coin on record for an outpoint is that of the first row carrying it |
| Coins.FeeOnRecord | internal/store/write.go:252-266 | A new transaction is on record with what it takes less what it makes, and with 0 when that is negative |
| Conservation.BlockConservesValue | internal/index/prepare.go:51-124 | The same law in the node's terms: coinbase + deposits + market creates - bundle spends - market deletes - fees, off by exactly the fees on record less the gaps, relisted transactions and market creates under a transaction's own id included; skipped trades contribute nothing |
| Prepare.PrepareTx | internal/index/prepare.go:157-177 | One transaction's spends and creates, numbered in order; fails exactly when an output does not decode |
| Prepare.PrepareMempool | internal/index/prepare.go:185-203 | The rows of a whole mempool listing, or failure when any output does not decode |
| Prepare.PrepareBody | internal/index/prepare.go:66-85 | Every transaction is listed; only those not skipped create and spend |
| Prepare.PreparePlaced | internal/index/prepare.go:86-116 | Deposits must carry the deposit kind, and all placed outputs must decode |
| Prepare.PrepareBlock | internal/index/prepare.go:29-127 | The rows of one block in order: coinbase, transactions, deposits, bundle spends, market creates and deletes; refused when the index and body lengths differ |
| Prepare.PreparedExactly | internal/index/prepare.go:29-127 | A block can be read if and only if each transaction is named once, every deposit is of the deposit kind and every output decodes, those of skipped transactions excepted |
| Prepare.CoinbaseNamed | internal/chain/block.go:119-125 | A keyed block's coinbase rows are named by the digest of its own header, an unkeyed block's by its merkle root |
| Prepare.PreparedHeader | internal/index/prepare.go:29-50 | The block row carries the height and hash it was read by and the links and roots of its header |
| Prepare.PreparedPlaces | internal/index/prepare.go:66-85 | Transaction row i carries place i, with the id, size and bytes the node gave for that transaction |
| Prepare.RowsStoreContent | internal/index/prepare.go:131-147 | Every output row carries the address and content of an output the node sent, and the value and type the decoder reads from that content |
| Prepare.CreatesExplained | internal/index/prepare.go:52-115 | A block writes an output row exactly for each coinbase output, each output of a transaction not skipped, each deposit and each market create, under its own outpoint and decoded value |
| Prepare.SpendsExplained | internal/index/prepare.go:66-124 | And a spend exactly for each input of such a transaction, each bundle spend and each market delete, with its source, kind and position |
| Coinbases.AcceptedExactly | internal/store/write.go:74-128 | A served block at the next height is accepted if and only if no indexed block has its hash: the coinbase index never refuses one |
| Coinbases.CoinbaseKept | internal/store/write.go:161-212 | Over every run of served blocks, a coinbase output is stored with its own coin at its own height if and only if no earlier block paid one under the same name; otherwise the earlier row stays |
| Coinbases.NoCoinbaseDropped | internal/chain/block.go:119-125 | So a run of keyed blocks with different headers and an injective digest loses no coinbase coin |
| Coinbases.SharedRootDrops | internal/index/prepare.go:51-64 | And a run of unkeyed blocks loses one exactly where a merkle root comes back |
| Stored.BlockStored | internal/store/write.go:105-124 | A landed block's row and the tip hold its hash, links, roots and transaction count |
| Stored.OutputStored | internal/store/write.go:161-212 | A new coin's row holds the address, value, content and exactness of the first create that makes it, under the block's hash and height |
| Stored.TransactionStored | internal/store/write.go:126-157 | A new transaction's row holds its place in the body, its size and its bytes |
| Stored.InputStored | internal/store/write.go:216-245 | Each input of an executed transaction marks the coin it takes with that transaction, the input's position and the height |
| Stored.SpenderTouches | internal/store/read.go:172-215 | A transaction that takes an owner's coin is in the owner's history at its block's height |
| Stored.MakerTouches | internal/store/read.go:172-215 | And so is one that makes the owner a new coin |
| Overlay.ApplyKeepsConsistent | internal/store/write.go:271-304 | Every block keeps: no outpoint in both output tables, no mempool spend of a confirmed-spent output |
| Overlay.RollbackKeepsConsistent | internal/store/write.go:319-355 | So does every rollback, to any depth |
| Overlay.ReplaceMakesConsistent | internal/store/mempool.go:38-110 | A snapshot makes the overlay consistent if and only if it fits the indexed outputs |
| Overlay.PendingRowIs | internal/store/mempool.go:38-79 | Each snapshot row holds its transaction's place in the listing, size and bytes |
| Overlay.FirstClaimIs | internal/store/mempool.go:97-108 | The claim on record for an outpoint is the first one, with its transaction, kind and position |
| Takeover.BlockTakesOver | internal/store/write.go:271-304 | A block mining from the snapshot changes every owner's combined list only by outside creates and removals, if and only if it takes no unconfirmed coin it does not also mine and makes no outside coin the snapshot claims, unless it removes it again; claims of coins nobody holds are allowed |
| Takeover.ViewBreaks | internal/api/address.go:89-101 | Otherwise the coin the block took is listed to every owner of it, and should not be |
| Takeover.ViewHides | internal/api/address.go:89-101 | And the coin the block made under a claim is hidden from every owner of it, and should not be |
| Takeover.MinedCoinsConfirm | internal/api/address.go:89-101 | Every mined coin left unspent only moves from unconfirmed to confirmed, for every owner, with the same value |
| Takeover.MinedPaymentsKeepBalances | internal/index/prepare.go:149-203 | Both, for a block and a snapshot prepared from the node's own transactions |
| Mining.RunKeepsBalances | internal/store/write.go:271-304 | Through any run of blocks mining from what one snapshot has left, every list moves only by outside creates and removals after every block, if and only if every block meets both conditions |
| Mining.MinedRunKeepsBalances | internal/index/prepare.go:149-203 | The same for any run of blocks the node serves after one snapshot of its mempool |
| Balances.BalanceAgrees | internal/store/read.go:46-93 | Chain funded - spent plus mempool funded - spent is the sum of the combined list less the coins counted twice, which are none under consistency; the join with blocks loses no coin |
| Balances.SnapshotFeesTelescope | internal/store/mempool.go:118-134 | Summed mempool fees equal confirmed value consumed minus unspent mempool value, for chains of any depth, if and only if no transaction's inputs fall short |
| Balances.BlockTakesListed | internal/store/write.go:271-304 | After a block the snapshot holds exactly the transactions the block does not list, each row as it was |
| Balances.BlockTakesFees | internal/store/write.go:271-304 | And the summed snapshot fee falls by exactly the fees of the transactions taken |
| Snapshots.MempoolFeesTelescope | internal/store/mempool.go:263-271 | The same of every snapshot prepared from a listing and written by ReplaceMempool |
| Snapshots.SnapshotFeeOnRecord | internal/store/mempool.go:118-134 | A snapshot transaction is on record with its inputs less its outputs, and with 0 when they fall short |
| Snapshots.KnownCoinsKeepValue | internal/store/write.go:161-212 | Over any blocks that agree with the snapshot, a coin known at snapshot time stays worth what it was |
| Snapshots.FeeStable | internal/store/write.go:252-266 | A snapshot transaction with all inputs known, confirmed after any blocks with its ancestors in the same block or before, is on record with the snapshot's fee if and only if no earlier block listed it with another |
| Snapshots.EntryMined | internal/index/prepare.go:157-203 | A transaction the node lists in its mempool and executes in a block is mined with exactly those inputs and outputs, because both paths prepare it alike |
| Snapshots.MinedFeeStable | internal/store/mempool.go:118-134 | The same for a transaction listed in the mempool and executed in a block, in the node's own terms |
| Runs.ConsistentOverRuns | internal/store/mempool.go:38-110 | Every state of every run of blocks, rollbacks and fitting snapshots is consistent |
| Runs.SoundOverRuns | internal/store/write.go:74-103 | Every state of every run of blocks, rollbacks and arbitrary snapshots keeps the structural invariant |
| Runs.FirstSeenOverRuns | internal/store/mempool.go:38-79 | A held transaction's first_seen is the clock of the pass that began its current unbroken stretch of presence |
| Runs.PresenceEnds | internal/store/write.go:271-304 | A held transaction leaves the snapshot exactly when an accepted block lists it or a new snapshot does not; rollbacks and other blocks leave its row as it was |
| Runs.PresentWhileNotRemoved | internal/store/mempool.go:38-79 | Over any run, it is held all through a stretch if and only if no event of the stretch was such a removal |
| Stores.InsertTxs | internal/store/write.go:130-157 | The loop inserts exactly the first row of each new txid |
| Stores.InsertOutput | internal/store/write.go:161-212 | One output row: kept when the outpoint exists, refused when its coinbase position is taken |
| Stores.InsertOutputs | internal/store/write.go:161-212 | All creates, or failure exactly when the coinbase index would be violated |
| Stores.ApplySpends | internal/store/write.go:216-245 | The marks written are ones the UPDATE may pick, and the count is of rows matched |
| Stores.SetFees | internal/store/write.go:252-266 | Exactly the transactions at this height get inputs minus outputs, floored at zero |
| Stores.WriteBlock | internal/store/write.go:74-103 | The whole transaction commits the ledger's Applied state, or nothing when a constraint fails |
| Stores.UndoBlocks | internal/store/write.go:319-355 | Predicates on height and spent_height give the ledger's RolledBack state |
| Stores.InsertPending | internal/store/mempool.go:38-79 | Snapshot rows keep first_seen of held transactions; a repeated txid fails |
| Stores.InsertPendingCoins | internal/store/mempool.go:81-95 | Snapshot outputs, first writer wins |
| Stores.InsertClaims | internal/store/mempool.go:97-108 | Snapshot spends, first writer wins |
| Stores.SetPendingFees | internal/store/mempool.go:118-134 | Each snapshot fee is confirmed inputs plus unconfirmed inputs minus outputs, floored at zero |
| Stores.ListRows | internal/store/mempool.go:204-239 | A scan lists each row once, and what it lists sums to the table's value |
| Stores.Store.Apply | internal/store/write.go:74-103 | New state of all tables in one step, or no change; accepted exactly when the constraints hold; reports the spends that matched no row |
| Stores.Store.ClearMempool | internal/store/write.go:271-304 | Drops exactly the transactions the block lists, the outputs it creates and the spends it makes |
| Stores.Store.Land | internal/store/write.go:83-103 | The new tables and the cleared snapshot are committed together and logged |
| Stores.Store.Rollback | internal/store/write.go:319-355 | The rolled-back tables, with the snapshot untouched |
| Stores.Store.ReplaceMempool | internal/store/mempool.go:38-110 | The new snapshot whole, or no change |
| Stores.Store.AddressUtxos | internal/api/address.go:71-103 | The combined list names each coin once and, in a sound and consistent state, sums to the reported balance |
| Stores.Store.AddressBalance | internal/store/mempool.go:141-182 | The reported balance equals the value of the combined view in a sound and consistent state |
| Sync.AgreementIsDownwardClosed | internal/index/sync.go:168-194 | Agreement at a height means agreement below it, so comparing the tip hash alone is sound |
| Sync.ForkIsGreatest | internal/index/sync.go:198-218 | The walk ends with the greatest agreed height, or none |
| Sync.ForkIsShared | internal/index/sync.go:198-218 | With shared genesis it always finds one, and the chains coincide up to it, the node's chain being shorter included |
| Sync.NothingSharedAboveFork | internal/index/sync.go:198-218 | No block above the fork is shared |
| Sync.RollbackRetracesSteps | internal/store/write.go:319-355 | Rolling back on a clean chain returns to the very state the index passed through |
| Sync.TraceSound | internal/store/write.go:306-314 | Every replayed state is sound and carries exactly the chain's hashes |
| Sync.TraceIsReplay | internal/index/sync.go:222-264 | The states a chain of applies passes through are its replays |
| Convergence.ResumesOnTrace | internal/index/sync.go:168-194 | After its rollback a pass stands on a replay of a prefix of the node's chain |
| Convergence.PassConverges | internal/index/sync.go:96-133 | Every commit of a pass is a replay of a prefix of the node's chain; the pass reaches the tip if and only if the chain can be replayed; then the index equals the replay from nothing |
| Convergence.ForeignGenesisSurvives | internal/index/sync.go:216-217 | When genesis differs the old genesis row survives the pass |
| Convergence.SharedGenesisIsExact | internal/index/sync.go:193-218 | A finished pass ends on a replay of the node's chain if and only if genesis is shared |
| Convergence.AlwaysOnSomePrefix | internal/index/sync.go:96-133 | However the node reorganises and wherever passes are cut short, the index is a replay of a prefix of some chain the node held |
| Convergence.PathIndependence | internal/index/sync.go:96-218 | After any history of passes, one finished pass leaves the tables equal to a from-scratch replay |
| Syncers.Syncer.FindForkHeight | internal/index/sync.go:198-218 | The loop finds the specified fork or rolls back to 0 itself; any answer keeps the tables sound; it fails only if a call failed |
| Syncers.Syncer.ResolveStart | internal/index/sync.go:168-194 | Commits the specified rollbacks and returns the next height; sound whatever the node answers; it fails only if a call failed |
| Syncers.Syncer.RollBackToFork | internal/index/sync.go:185-193 | When the tips differ, rolls back to the fork and resumes above it; it fails only if a call failed |
| Syncers.Syncer.ReadRows | internal/index/sync.go:222-256 | The rows of the block at a height: against a steady node they are that block's own, and reading fails only if a call failed or the block is unreadable |
| Syncers.Syncer.ApplyHeight | internal/index/sync.go:222-264 | Commits exactly one lawful step, or nothing; it fails only if a call failed, the block is unreadable or the store refuses it |
| Syncers.Syncer.WriteRows | internal/index/sync.go:222-264 | The store accepts exactly what the constraints allow and the committed state is determined by distinct spends |
| Syncers.Syncer.ApplyUpTo | internal/index/sync.go:114-131 | The commits are a prefix of the specified ones in order; all of them when it is done; without a failure it stops short only where there is no next step |
| Syncers.Syncer.Once | internal/index/sync.go:96-133 | Every commit is sound whatever the node answers; against a steady node the commits are a prefix of the specified pass, and all of it when done; a pass in which nothing fails is done if and only if the specified pass reaches the tip |
| Syncers.Syncer.Run | internal/index/sync.go:76-93 | Against a node that moves, fails or answers anything: the tables stay sound, and while no written block re-spends they are the replay of the blocks served and not undone |
| Syncers.Syncer.Follow | internal/index/sync.go:76-93 | From an empty index through any passes with failures: always on a prefix of some chain, after a finished last pass equal to a replay of the node's chain, and a last pass in which nothing fails is finished if and only if that chain can be replayed |
| Serving.ReplaysExactly | internal/index/sync.go:222-264 | A chain can be replayed if and only if every block of it can be read and no two have one hash |
| Lineage.IndexIsServedReplay | internal/index/sync.go:222-264 | For every log of writes and undos, whatever chains the blocks came from, the tables are the replay of the blocks served and not undone, as long as none re-spends |
| Lineage.PassMixes | internal/index/sync.go:96-133 | A finished pass leaves the replay of the served blocks below the height it resumed from and the node's blocks above |
| Lineage.LinkageIsExact | internal/index/sync.go:168-264 | Over any served blocks, a finished pass ends on a replay of the node's chain if and only if every served header below the height it resumed from names the block it was written on |
| Paging.History | internal/store/read.go:172-215 | The page at a bound of the one ordered history: height descending, then id bytes |
| Paging.HistoryUnique | internal/store/read.go:172-215 | The ordering determines the history, so all pages are cut from one list |
| Paging.AddressTxs | internal/api/address.go:143-203 | Unknown cursor fails, a cursor at height 0 gives nothing, otherwise the page one block below, without ids that name no transaction |
| Paging.NextPageBelow | internal/api/address.go:164-170 | Everything on the page behind a cursor lies strictly below the height the cursor is indexed at |
| Paging.FollowCursor | internal/api/address.go:143-203 | A client that calls with the last txid of each page until one is empty collects exactly what the laws below speak of |
| Paging.NeverRepeats | internal/api/address.go:143-203 | However pages fall, the client reads references of the history in its order, none twice |
| Paging.NoTransactionTwice | internal/api/address.go:143-203 | And no transaction twice for any address when each is referenced at one height, wherever it was listed first |
| Paging.PagesCoverHistory | internal/api/address.go:143-203 | The pages concatenate to the whole history exactly once if and only if no page boundary falls inside a block |
| Paging.PagesCoverExactly | internal/api/address.go:143-203 | For every owner, bundle and market spends and relisted trades included, the client reads every indexed transaction of the history once and in order, if and only if no page jumps over one and none comes up empty above one |
| Histories.PreparedOwnRows | internal/index/prepare.go:29-127 | A prepared block's regular rows and spends come from its own transactions or from other ids, if and only if the ids in the node's answers are sorted so |
| Histories.SourcedOverRuns | internal/store/write.go:74-103 | Over every run of such blocks, rollbacks and snapshots, every regular output and every spend is by an indexed transaction no later than it, or by another id |
| Histories.SourcedResolves | internal/store/read.go:172-215 | There every owner's history resolves; with new txids at the transactions' own heights, and completely if and only if the owner was touched by no bundle or market id |
| Histories.RelistedStaysEarlier | internal/store/write.go:130-157 | A txid listed again stays indexed at its first height, below the height its outputs are referenced at |
| Histories.OneHeightOverRuns | internal/store/write.go:126-157 | Over every run in which a listed transaction acts once, however often it is listed, each is referenced at one height |
| Histories.NewRunsActOnce | internal/store/write.go:126-157 | Runs in which every listed txid is new are such runs |
| Histories.PagesOverRuns | internal/api/address.go:143-203 | In every state of every run over the node's blocks: for every owner, references in order and none twice, and every indexed transaction if and only if no page jumps over one; no transaction twice when each acts once; and with new txids, for an owner touched by transactions alone, the whole history exactly once if and only if the cuts are clean |
| OutPoints.Key | internal/chain/outpoint.go:65-71 | The 37-byte key written into a fixed buffer |
| OutPoints.KeyLayout | internal/chain/outpoint.go:65-71 | Byte 0 is the kind, bytes 1 to 32 the hash, and the last four spell the vout from its lowest byte up |
| OutPoints.KeyRoundTrip | internal/chain/outpoint.go:74-82 | Decoding inverts encoding on all five kinds |
| OutPoints.FromKeyRoundTrip | internal/chain/outpoint.go:74-82 | Every key that decodes is the key of what it decodes to |
| OutPoints.KeyInjective | internal/chain/outpoint.go:65-71 | Different outpoints have different keys |
| OutPoints.KeyedTableSimulates | internal/store/migrations/001_initial.sql:22-39 | A byte-keyed table answers lookups as the outpoint-keyed map does, and stays its image under insert, update and delete by key |
| OutPoints.MarketFundsRoundTrip | internal/chain/outpoint.go:87-101 | Unpacking inverts packing, and packed outpoints are canonical |
| OutPoints.MarketFundsLayout | internal/chain/outpoint.go:87-95 | The packed source holds the market id, the height from its lowest byte up, the fee flag and zeros, under vout 0 |
| OutPoints.RepackIsCanonical | internal/chain/outpoint.go:87-101 | Packing inverts unpacking if and only if the outpoint is canonical |
| OutPoints.HexRoundTrip | internal/chain/hash.go:28-39 | Hex decoding inverts encoding |
| OutPoints.HexText | internal/chain/hash.go:16-39 | Each byte is two lower-case digits, high half first |
| OutPoints.FlipHash | internal/chain/hash.go:51-57 | The loop reverses the 32 bytes |
| OutPoints.BitcoinHashRoundTrip | internal/chain/hash.go:51-77 | The reversed hex text reads back as the hash |
| OutPoints.BitcoinTextReversed | internal/chain/hash.go:51-57 | The text spells the bytes from the last to the first |
| OutPoints.DepositRoundTrip | internal/chain/outpoint.go:221-235 | The "txid:vout" text reads back as the deposit outpoint |
| OutPoints.WireRoundTrip | internal/chain/outpoint.go:163-218 | All five kinds encode, and decode to themselves if and only if market funds are canonical |
| OutPoints.WireMembers | internal/chain/outpoint.go:194-218 | Each kind is written to its own member and to no other, a coinbase under its txid, a deposit as lower-case text |
| OutPoints.CoinbaseEitherWay | internal/chain/outpoint.go:144-176 | A coinbase outpoint is read from its txid, or from its merkle root when it has none |
| Authorizations.AuthorizationsFor | internal/chain/block.go:144-159 | The running start gives exactly the transaction's slice, one signature for each of its inputs; fails exactly when the index is out of range or the list too short |
| Authorizations.StartCountsInputs | internal/chain/block.go:148-152 | A transaction's slice starts after one signature for every input of the transactions before it |
| Authorizations.SignatureOfInput | internal/chain/block.go:144-159 | Signature j of transaction i stands where input j of transaction i stands among all inputs of the body |
| Authorizations.SlicesTile | internal/chain/block.go:144-159 | The slices concatenate to the prefix with one signature for each input of the transactions taken |
| Authorizations.OneOwner | internal/chain/block.go:144-159 | Each signature of the prefix belongs to exactly one transaction |
| Services.StepKeepsOwnership | internal/service/service.go:71-95 | Every step of every call keeps each connection with one owner: the service, one call, or released |
| Services.StepKeepsChannels | internal/service/service.go:139-179 | Every step keeps closed channels quiet and registered ones open |
| Services.StepKeepsServed | internal/service/service.go:155-179 | Every step keeps: each channel made was sent a value, and is registered, about to be, or closed |
| Services.RunsKeepInvariants | internal/service/service.go:71-179 | All three over every interleaving |
| Services.ConnectionsReleasedOnce | internal/service/service.go:71-137 | Each connection is released at most once, and with no call in flight every one but the held one was released; every channel gets a value when it is made, is closed once it is dropped, and is not sent to or closed after that |
| Services.FlagFollows | internal/service/service.go:139-145 | The flag goes up when a call reports its connection, down when connecting fails or it is dropped, and only then |
| Limits.GenesisMismatch | internal/index/sync.go:216-217 | Two one-block chains on which a finished pass does not end on the node's chain |
| Limits.RespendIsLost | internal/store/write.go:233-239 | A coin made and spent in block 0 and spent again in block 1 carries its mark before block 1 and none after block 1 is rolled back |
| Limits.LateSnapshot | internal/index/mempool_sync.go:82-92 | A listed transaction whose snapshot fitted when it was read comes back unconfirmed when the block executing it lands first |
| Limits.MovedIsServed | internal/index/sync.go:114-131 | Three writes, the last read after the node moved, serve the chain g, a1, b2 |
| Limits.MovedNodeStays | internal/index/sync.go:222-264 | Blocks g and a1, then b2 from the chain g, b1, b2: the tips agree, later passes commit nothing, and the index never equals the node's chain |
| Limits.TakenUnminedIsListed | internal/store/write.go:271-304 | A child mined without its unconfirmed parent: the coin it spent is back on every list |
| Limits.ClaimedDepositIsHidden | internal/store/write.go:66-69 | A mempool transaction spends a deposit the index has not seen: the block that brings the deposit shows it to nobody |
| Limits.SkippedTradeKeepsFee | internal/store/write.go:252-266 | A trade skipped in block 0 shows a fee of one in the snapshot and keeps none when block 1 executes it |
| Limits.UncoveredMints | internal/store/write.go:252-266 | A block with one input-less transaction and a positive output does not conserve value |
| Limits.SharedRootLosesCoinbase | internal/store/migrations/001_initial.sql:41-44 | Two unkeyed blocks with one merkle root pay one owner each: both are accepted and the second owner is never paid |
| Limits.PageCutLoses | internal/api/address.go:143-203 | Twenty-six transactions of one block, reached over blocks the node serves: the client reads the first twenty-five |
| Limits.RelistedJumps | internal/api/address.go:164-170 | A trade listed and skipped at height 1 and executed at height 3, reached over blocks the node serves: the cursor jumps past the transaction at height 2 |
| Limits.UnpackedFundsDrift | internal/chain/outpoint.go:194-218 | A market funds outpoint not in packed form does not survive its JSON text |

## Left out

- HTTP routing, JSON rendering, status codes and the RPC clients: plumbing over the store and the node.
- Hash functions, base58 and the chain-specific content decoders: opaque values and a `Codec` parameter; the decoders' 64-bit value arithmetic is not modelled.
- The SQL engine: each transaction is atomic, each query a comprehension, planner and isolation levels are not modelled; the three reads of the combined list see one state.
- Integer widths: heights at or above 2^31, 64-bit sum overflow and the clamp of the height bound are not modelled; output and input positions wrap at 2^32 as in the source.
- `main_height` and `block_time`: annotations outside the ledger.
- The address and scripthash columns: one arbitrary predicate on addresses stands for both, so the results hold for either.
- Transaction and output counts in the statistics, and the order of the UTXO and mempool lists.
- The unconfirmed rows on the first history page: pages here are the confirmed ones.
- JSON tokenising and string escapes: the wire codec starts from the decoded variant; only the deposit text is modelled character by character.
- The four spent_* columns: one optional record, so a half-set spend cannot be expressed.
- The row inserted by `Init`: taken as present from the start.
- `internal/service/service.go` as a class: its calls interleave, so it is a state machine over atomic steps; the reconnect loop is calls of `Connect` and `Drop` in any order, and clock and back-off are not modelled.
- Delivery of every state change to subscribers: sends to a full channel are dropped.
- The activity feed, the deposit and block listings, the registry of chains with its port arithmetic, and transaction broadcast: read-only listings over the same tables and configuration beside them.
- Services.ConnectionsReleasedOnce: without a closer nothing is released, so the second half is stated for a service that has one.
- Convergence.PathIndependence: asks for hash-linked chains fixed within a pass, blocks named by their hash, one genesis, and no re-spends, as the protocol itself needs.
- Histories.SourcedOverRuns: asks that bundle ids, market ids and the hashes of blocks that delete market coins are not also transaction ids.
- Snapshots.MinedFeeStable: takes it as given that one txid names one transaction across the snapshot and the blocks, that neither spends an outpoint twice, and that no market create is under the transaction's own id.
- Conservation.BlockConservesValue: takes it as given that the block's creates are new, each outpoint is created and spent once in it, and every spent coin is held.
- Coinbases.CoinbaseKept: takes it as given that a block pays at most 2^32 coinbase outputs and that market creates are not of the coinbase kind.
- Serving.ReplaysExactly: takes it as given that market creates are not of the coinbase kind.
- Takeover.BlockTakesOver: takes it as given that no coin sits in both output tables and that the block's coinbase, deposit and market creates are new.
- Histories.PagesOverRuns: that no transaction is read twice is stated for runs in which a listed transaction that already made or spent a coin makes no unheld coin and spends no held one.

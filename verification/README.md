# Verified model of the ElectrumX wallet client

This project models the parts of go-electrum-client that keep state over long
runs, in Dafny 4.11, and proves what those runs keep. `dafny verify
dfyconfig.toml` checks all of it.

**The wallet ledger** (`Sums`, `Ledger`, `Undo`, `Adding`, `TxStores`, `LedgerRuns`,
`Disjointness`, `Conservation`, `ExactAdding`, `Overlap`, `FrozenMarks`, `RowContents`, `Hits`, `Pricing`,
`TrueRows`, `ReAdding`, `HeightCache`, `Wallets`, `LedgerDriver`, `LedgerExamples`). The wallet keeps tables of
unspent outputs, spent outputs and transactions, and a cache of heights. Adding a
transaction undoes the transactions it conflicts with, by a recursion that walks a
snapshot of the spent outputs while the nested calls delete rows. `TxStore` is that
code over fields it updates in place; `Ledger.Kill` says what undoing a set of
transactions means, and `MarkAsDead` is proved to be the undoing of the least closed
set of descendants. On top of the specification come theorems over all runs from an
empty wallet, restarts included: no double spends, no output both spent and unspent,
conservation of value, what every row shows, and the link from there to the reported
balance. Where the code
fails to keep the balance, the tables apart, a frozen mark or the cache there are exact
conditions, and runs that show it. `LedgerDriver` works any series of calls on the store and proves that what happens
is such a run.

**The header chain** (`Hex`, `Records`, `Chains`, `ChainSafety`,
`ChunkRefinesBlocks`, `HeaderOutcomes`, `Reorg`, `HeaderSync`, `SyncOutcomes`, `HeaderStore`,
`NodeHeaders`, `HeaderExamples`). A file of
fixed-size headers, a map by height, a reverse map and a tip move together as headers
arrive from an untrusted server, and eight headers are taken off when one does not
connect. `Headers` and `Node` are the code in place; `Chains` holds the values their
methods compute. The theorems are about every run against every server, about
convergence to an honest server's chain, about the chunk path and the per-block path
doing the same, about which headers are refused, connect or cost the top of the chain, and
about the first sync and a restart: when it ends well, and that it does with an honest
server.

**Keys** (`KeyTables`, `Keys`). The manager keeps a window of unused keys ahead over
either of two stores, which count the window differently. The transaction store marks
the keys that a transaction pays, and reads its own scripts back from the manager.

**Smaller protocols**: matching responses to requests (`ServerConns`), the peer list
(`Peers`) and the rescan of a recreated wallet (`Rescan`).

Txids, scripts, hashes and addresses are abstract values compared for equality.
Database tables are maps keyed as the real schemas key them, and are walked in an
arbitrary order. A missing row and a failed request are values, not preconditions.

## What the code does that one might not expect

- Adding a live transaction again puts its outputs back among the unspent ones even when
  they have been spent. It keeps the balance if and only if every own output of any
  value is still unspent (`ReAdding.LiveReAddExact`), and keeps unspent and spent outputs
  apart if and only if no own output is recorded as spent (`Overlap.StaysDisjointIff`;
  `Overlap.NeverBothIff` over whole runs). If an unconfirmed parent's output was already
  spent when the parent confirms, the coin is listed both as unspent and as spent, and
  the totals differ: `LedgerExamples.ConfirmingSpentParentLosesBalance` is such a run.
- Adding it again also clears the frozen mark of its outputs
  (`FrozenMarks.StaysFrozenIff` says exactly which calls keep a mark). A coin frozen while
  unconfirmed is on offer once its transaction confirms
  (`LedgerExamples.ConfirmingThawsCoin`).
- sqlite has no column for the frozen mark of a spent output (wallet/db/stxo.go:20-51).
  An output whose spend is undone comes back as it was if and only if the database keeps
  the mark or there was none (`FrozenMarks.UndoneAsItWasIff`);
  `LedgerExamples.UndoneSpendThawsInSqlite` ends with it frozen in bolt only.
- The stored value of a transaction is never brought up to date. An output whose script
  becomes ours only after its transaction was stored is listed when the transaction
  confirms, and the stored value does not count it
  (`LedgerExamples.LateScriptLosesBalance`).
- Adding a dead transaction again keeps the value stored the first time, so the balance
  holds if and only if every stored parent from which it takes own value lives on, or it
  touches nothing (`ReAdding.DeadReAddExact`). It fails when a child of a dead parent is
  reported confirmed alone (`LedgerExamples.ConfirmingDeadChildLosesBalance`).
- A transaction reported at a negative height, which client/btc/wallet_synchronize.go:312
  passes on, is stored dead while its outputs are listed and its inputs spent. The balance
  is kept if and only if that is an even trade, or nothing own is touched
  (`ReAdding.BalanceExact`, for every call at every height).
  `LedgerExamples.NegativeHeightLosesBalance` is a run.
- Despite the comment at wallet/wltbtc/txstore.go:107, confirmed conflicts are marked
  dead as well as unconfirmed ones (`LedgerRuns.WhoWinsConflicts`), also those between
  two coinbase transactions, which all spend the null outpoint
  (`LedgerRuns.CoinbaseUndoesCoinbase`): in `LedgerExamples.SecondCoinbaseUndoesFirst` the
  second one mined undoes the first.
- The height cache is refreshed only when a transaction is stored. A call that undoes
  conflicts and stores nothing leaves it stale, and it stays exact if and only if the
  call moves some output or had no conflicts (`HeightCache.CacheStaysExactIff`). A
  confirmed transaction that dies in such a call, as a conflict or below one, is ignored
  at whatever height it is reported again, although
  client/btc/wallet_synchronize.go:302 lets it through (`HeightCache.DeadIsMissed`); `LedgerExamples.StaleCacheMissesParent` is a run of
  three calls that ends with it still dead. Opening the wallet again repairs the cache
  (`HeightCache.RestartHeals`).
- A sync that ends well need not leave a tip that matches the file: the tip counts
  what the server says it sent. `HeaderSync.SyncedIsGoodIff` says exactly when it does,
  `HeaderExamples.SyncEndsWithWrongTip` is an answer that says one header and holds two.
- A sync takes nothing off the file. A wallet started again after its server has moved to
  another branch syncs if and only if the server still has the last header of the file
  where the file has it (`SyncOutcomes.RestartSyncsIff`); only notifications rewind.
- A second rewind before recovery is over lowers the tip shown to clients, exactly then
  (`ChainSafety.RewindAndClientTip`); in `HeaderExamples.SecondRewindLowersClientTip` it
  falls from 16 to 8.
- A range of headers asked for by a client must end below the tip, so the header at
  the tip is never in one (`HeaderStore.Headers.GetBlockHeaders`).
- A leader that was started as one may be dialled again as a peer: only the peer list is
  searched for its address, which is offered if and only if no live peer is connected
  there (`Peers.LeaderDialledAgainIff`). A promoted leader stays in the list and is never
  offered (`Peers.PromotedIsNeverOffered`). With one known server `Peers.OffersLeaderAgain`
  and `Peers.DialsLeaderAgain` end with the leader's server offered and dialled.
- bolt counts every unused key of a purpose, so the run of unused keys after the last used
  one may be far below the gap limit: marking the newest key leaves a run of one
  (`KeyTables.RunAfterMark`).

## Model

| member | source | states |
|---|---|---|
| Ledger.Descendants | wallet/wltbtc/txstore.go:257-266 | the least set that holds the roots and, with a transaction, every transaction recorded as spending one of its outputs |
| Ledger.RankedIsAcyclic | wallet/wltbtc/txstore.go:232-267 | recorded spends along which some rank grows have no cycle, the premise of exact undoing |
| Ledger.KillCompose | wallet/wltbtc/txstore.go:106-111 | undoing one conflict after another is undoing the descendants of all of them at once |
| Ledger.KillTwice | wallet/wltbtc/txstore.go:232-283 | undoing a second set after a closed first one is undoing the union |
| Undo.MidRestore | wallet/wltbtc/txstore.go:249-256 | visiting a spend by the dying transaction keeps the loop's account of which outputs are unspent again |
| Undo.MidChild | wallet/wltbtc/txstore.go:258-266 | visiting an output of the dying transaction undoes exactly the spender's descendants among the spends still recorded, and keeps the loop's account |
| Undo.MidEnd | wallet/wltbtc/txstore.go:268-281 | after the last row, deleting the transaction's own outputs leaves exactly the undoing of its descendants |
| Undo.WalkEnd | wallet/wltbtc/txstore.go:232-283 | on any tables, cyclic or not, spends are only deleted and heights only become -1 |
| TxStores.TxStore.UpdateHeight | wallet/bdb/txns.go:86-109 | one stored height changes; a missing row is an error in bolt and nothing in sqlite |
| TxStores.TxStore.MarkStxoAsDead | wallet/wltbtc/txstore.go:237-247 | the spend is deleted and its spender's height is -1, even where the update then fails |
| TxStores.TxStore.MarkAsDead | wallet/wltbtc/txstore.go:232-283 | terminates on every table, each nested call starting with strictly fewer spends; without cycles and with every spender stored, the tables become those with exactly the descendant closure undone |
| TxStores.TxStore.VisitRow | wallet/wltbtc/txstore.go:248-267 | one turn of the loop on a row that may be stale: a spend by the dying transaction, a spend of its output, or neither; the account of what has been undone goes on |
| TxStores.TxStore.RestoreInput | wallet/wltbtc/txstore.go:249-256 | the output that the dying transaction spent is unspent again, and the account of what has been undone goes on |
| TxStores.TxStore.KillChild | wallet/wltbtc/txstore.go:257-266 | the spender of an output of the dying transaction is undone with everything below it, and the account goes on |
| TxStores.TxStore.DeleteOutputsOf | wallet/wltbtc/txstore.go:268-280 | exactly the unspent outputs of the transaction go, the rest stay as they are |
| TxStores.TxStore.CheckDoubleSpends | wallet/wltbtc/txstore.go:288-316 | the txids returned are exactly those of the live stored transactions, other than the given one, that spend one of its inputs |
| TxStores.TxStore.KillConflicts | wallet/wltbtc/txstore.go:106-111 | undoing the returned txids in turn, repeated ones included, undoes the descendants of all |
| TxStores.TxStore.PutOutputs | wallet/wltbtc/txstore.go:126-153 | the unspent outputs gain one row for every output paying an own script, the value and hits are their sum and number, and the keys paid are marked as used one after the other, with the windows filled up |
| TxStores.TxStore.SpendInputs | wallet/wltbtc/txstore.go:161-183 | exactly the unspent outputs among the inputs move to the spent ones; value and hits are the sum and number of those not watch-only |
| TxStores.TxStore.UpdateSpendHeight | wallet/wltbtc/txstore.go:185-203 | at a positive height one spend of the transaction, if there is one, gets the height, and no other row changes; `RowContents.SpendHeights` says what that comes to over a call |
| TxStores.TxStore.StoreTxn | wallet/wltbtc/txstore.go:205-225 | a new row is stored whole; of an old one only a height that is not positive is overwritten |
| TxStores.TxStore.PopulateAdrs | wallet/wltbtc/txstore.go:50-76 | the own scripts become exactly those of the keys in the key store, and the cache holds the stored height of every stored transaction and keeps its other entries |
| TxStores.TxStore.constructor | wallet/wltbtc/txstore.go:33-76 | a store opened over the tables of a database has the scripts of all keys and exactly the stored heights |
| TxStores.TxStore.Settle | wallet/wltbtc/txstore.go:126-229 | outputs, inputs, spend height and row follow from the tables; a transaction that touches the wallet nowhere leaves no row; the keys paid are marked in turn and the own scripts read back |
| TxStores.TxStore.CheckSanity | wallet/wltbtc/txstore.go:82-87 | true exactly for transactions with inputs and outputs, no input twice, every value and the total from 0 to 21 million coins, and whatever else the library checks |
| TxStores.TxStore.AddTransaction | wallet/wltbtc/txstore.go:79-230 | ignored calls change nothing and mark no key; otherwise the conflicts are undone and the transaction settled on what is left, with the hits reported, the paid keys marked in turn and the scripts read back from the key store; an error exactly for what is not sane |
| LedgerRuns.SettledShape | wallet/wltbtc/txstore.go:126-228 | row by row which outputs are unspent and spent after settling, and that a row is stored exactly when one was touched |
| LedgerRuns.Process | wallet/wltbtc/txstore.go:79-230 | a call that is processed clears its conflicts and settles on what is left, and one that is not changes nothing |
| LedgerRuns.NoConflictLeft | wallet/wltbtc/txstore.go:97-112 | after the conflicts are undone no live stored transaction shares an input with the new one |
| LedgerRuns.WhoWinsConflicts | wallet/wltbtc/txstore.go:102-111 | at height 0 the newcomer loses and nothing changes; at any other height every conflicting transaction is live before and not after |
| LedgerRuns.CoinbaseUndoesCoinbase | wallet/wltbtc/txstore.go:288-316 | a processed transaction that spends the null outpoint kills every other live one that does, confirmed or not |
| LedgerRuns.NoDoubleSpends | wallet/wltbtc/txstore.go:79-230 | in every reachable state, restarts included, no two distinct live transactions spend the same outpoint, whatever the heights, the order and the re-adding of dead ones |
| Disjointness.KillKeepsApart | wallet/wltbtc/txstore.go:232-283 | undoing a closed set keeps unspent and spent outputs apart and parents of spent outputs confirmed |
| Disjointness.SettleKeepsApart | wallet/wltbtc/txstore.go:126-228 | settling a transaction that spends only confirmed wallet outputs keeps the same |
| Disjointness.NeverBothUnspentAndSpent | wallet/wltbtc/txstore.go:89-183 | over every run, restarts included, in which processed calls spend wallet outputs only once confirmed, no outpoint is both unspent and spent; the exact condition is `Overlap.NeverBothIff` |
| Overlap.StaysDisjointIff | wallet/wltbtc/txstore.go:97-183 | a processed call on tables that are apart leaves them apart if and only if every own output of the transaction recorded as spent has a spender that the call undoes |
| Overlap.SoundStaysDisjointIff | wallet/wltbtc/txstore.go:97-183 | in a sound wallet: if and only if the transaction is not live already with an own output recorded as spent |
| Overlap.NeverBothIff | wallet/wltbtc/txstore.go:89-183 | over every run no outpoint was ever both unspent and spent if and only if no processed call added a transaction with an own output that stays recorded as spent |
| FrozenMarks.StaysFrozenIff | wallet/wltbtc/txstore.go:130-148 | a call keeps an unspent output frozen if and only if it neither pays it again, nor spends it, nor undoes its transaction; one paid again and still unspent is not frozen |
| FrozenMarks.UndoneAsItWasIff | wallet/wltbtc/txstore.go:232-256 | an output that is spent and, any number of calls later, unspent again without being paid again is as it was if and only if the database keeps the mark or it had none; the mark is all that can differ |
| RowContents.SpendHeights | wallet/wltbtc/txstore.go:161-203 | every spend a call records has the height of the call; at a positive height some recorded spend by the transaction has it, if there is any; all other spends keep theirs |
| RowContents.OutputRows | wallet/wltbtc/txstore.go:126-148 | after a call an own output of the transaction shows its value, script and the height of the call, unfrozen; any other shows what it showed before it, or before it was spent |
| RowContents.TransactionRows | wallet/wltbtc/txstore.go:205-225 | a new row is the transaction at its height, an old one changes only a height that is not positive, those undone get -1 and all others stay |
| Adding.TotalAdds | wallet/wltbtc/txstore.go:82-87 | the total of the outputs adds up over any way of splitting them |
| Hits.CallReports | wallet/wltbtc/txstore.go:79-230 | one hit for each own output, each input spent from the wallet and a spend that gets its height, and one more where there was any; an ignored call reports 1 where the transaction is known and else 0 |
| Hits.LeftAlone | wallet/wltbtc/txstore.go:82-104 | nothing changes for a malformed transaction, for one known as confirmed, for one known as pending and reported pending, and for a pending one that spends what a live one spends |
| Hits.OthersAreProcessed | wallet/wltbtc/txstore.go:82-104 | those are the only calls ignored |
| Hits.NeverWatchOnly | wallet/wltbtc/txstore.go:126-228 | over every run no output and no stored transaction is watch-only |
| Conservation.SoundIsBalanced | wallet/wltbtc/txstore.go:126-183 | where each live row's value is what it created less what it spent, the live values add up to the unspent outputs |
| Conservation.NetValueIsWorth | wallet/wltbtc/txstore.go:128-183 | the value computed by the two loops is the worth of the own outputs less that of the wallet outputs spent |
| Conservation.KillKeepsSound | wallet/wltbtc/txstore.go:232-283 | undoing any closed set keeps every live row's value explained |
| Conservation.SettleKeepsSound | wallet/wltbtc/txstore.go:126-228 | so does settling a transaction that moves nothing, or at a height from 0 on a new one, a dead one whose stored value is the value it has now, or a live one again whose outputs are in the tables |
| Conservation.Conserved | wallet/wltbtc/txstore.go:79-230 | over every run whose calls that move something are orderly, nested undoing, the return of dead transactions and restarts included, the stored values of live transactions sum to the values of the unspent outputs that are not watch-only |
| Pricing.ConservedTidy | wallet/wltbtc/txstore.go:79-230 | the same from premises a caller can look up before each call, while own scripts are added; every stored row, dead or live, then has the value its transaction gives it |
| Pricing.TidyIsOrderly | wallet/wltbtc/txstore.go:79-230 | what a caller can look up before a call, parents before children, dead ones only while their stored parents live on and no stored transaction paying a script that becomes own, is all that conservation asks |
| Pricing.StepKeepsPriced | wallet/wltbtc/txstore.go:79-230 | such a call keeps the value of every stored row, dead or live, what its transaction creates less the own inputs it spends |
| Pricing.GrowingPaysAlike | wallet/wltbtc/txstore.go:50-69 | own scripts that only grow change nothing for a transaction that pays no new one |
| TrueRows.RowsStayTrue | wallet/wltbtc/txstore.go:79-230 | over every tidy run each output, unspent or spent, shows the script and the stored height of the transaction that made it; each spend shows the stored height of its transaction or 0, and of a confirmed transaction that spends anything some spend shows it |
| TrueRows.CountedIsConfirmed | wallet/wltbtc/wallet.go:370-419 | after every tidy run the balance reports as confirmed exactly the outputs of confirmed transactions, in whatever order the database lists the spends |
| ReAdding.LiveReAddExact | wallet/wltbtc/txstore.go:130-148 | adding a live transaction again keeps the balance if and only if all its own outputs worth anything are still unspent; where a negative height makes its row dead, if and only if the value lost with the row is what is counted a second time |
| ReAdding.DeadReAddExact | wallet/wltbtc/txstore.go:207-223 | adding a dead one again, its conflicts undone on the way, keeps the balance if and only if every stored parent of an own input worth anything lives on, or no output of the wallet is touched; at a negative height, if and only if its own outputs are worth its inputs left |
| ReAdding.NewAddExact | wallet/wltbtc/txstore.go:97-228 | adding a new one keeps the balance at every height from 0 on, even after its children; at a negative height if and only if its own outputs are worth its inputs left |
| ReAdding.BalanceExact | wallet/wltbtc/txstore.go:79-230 | from a wallet in order, whatever is added at whatever height, the balance is kept if and only if the tables say so before the call |
| ExactAdding.SoundAdd | wallet/wltbtc/txstore.go:97-228 | in a sound wallet a transaction settles on the tables with exactly the descendants of its conflicts undone |
| ExactAdding.ExactAdd | wallet/wltbtc/txstore.go:97-228 | the same without any premise on values, wherever undoing is exact |
| HeightCache.CacheStaysExactIff | wallet/wltbtc/txstore.go:97-228 | with an exact cache a processed call leaves it exact if and only if it moves an output or a spend height of the wallet, or has no conflicts |
| HeightCache.DeadIsMissed | wallet/wltbtc/txstore.go:89-95 | a transaction that dies in a call that stores nothing, as a conflict or below one, counts as known afterwards if and only if it was confirmed or is reported without a height, and then the call is ignored and it stays dead |
| HeightCache.RestartHeals | wallet/wltbtc/txstore.go:33-76 | opening the wallet again makes the cache exact, and no dead transaction is taken for known |
| LedgerExamples.StaleCacheMissesParent | wallet/wltbtc/txstore.go:89-111 | three calls after which a confirmed parent, killed by a rival that pays nobody we own and reported again, is still dead |
| LedgerExamples.ConfirmingSpentParentLosesBalance | wallet/wltbtc/txstore.go:130-148 | three calls after which a coin is both unspent and spent and the totals differ |
| LedgerExamples.ConfirmingDeadChildLosesBalance | wallet/wltbtc/txstore.go:205-223 | four calls after which a child re-added without its dead parent is live with a stored value that no unspent output backs |
| LedgerExamples.LateScriptLosesBalance | wallet/wltbtc/txstore.go:130-148 | two calls after which an output that became own in between is listed and not counted in the stored value; the run meets all other premises of conservation |
| LedgerExamples.NegativeHeightLosesBalance | wallet/wltbtc/txstore.go:79-230 | two calls after which a parent reported at a negative height is dead while its coin is listed |
| LedgerExamples.ConfirmingThawsCoin | wallet/wltbtc/txstore.go:130-148 | a coin is frozen while unconfirmed, its transaction confirms, and the coin is offered for spending |
| LedgerExamples.UndoneSpendThawsInSqlite | wallet/db/stxo.go:20-51 | a frozen coin is spent and the spend undone by a conflict on another input; it is unspent again, and frozen exactly in bolt |
| LedgerExamples.SecondCoinbaseUndoesFirst | wallet/wltbtc/txstore.go:288-316 | two confirmed coinbase transactions, of which the second leaves the first dead |
| LedgerDriver.Do | wallet/wltbtc/txstore.go:33-230 | one call on the store, or opening it again, is a step of a run, and the own scripts only grow |
| LedgerDriver.Drive | wallet/wltbtc/txstore.go:33-230 | any series of calls on a wallet over an empty database passes through the states of a run, so every theorem over runs holds of it |
| Wallets.Wallet.IsStxoConfirmed | wallet/wltbtc/wallet.go:372-387 | the first recorded spend in list order that concerns the output decides: a spend by its own transaction by the height of the spend, an equal output by its own height; no if there is none |
| Wallets.SaysIff | wallet/wltbtc/wallet.go:372-387 | the answer is yes if and only if there is a first recorded spend that concerns the output and its deciding height is positive |
| Wallets.Wallet.Balance | wallet/wltbtc/wallet.go:370-419 | confirmed and unconfirmed together are the sum of all outputs that are not watch-only, hence of the live transactions' values in a balanced wallet; locked is the sum of the frozen ones; confirmed is the sum of those at a height and those that the recorded spends, as listed, say are confirmed |
| Wallets.CountedBounds | wallet/wltbtc/wallet.go:372-412 | in whatever order the database lists the spends, all outputs at a height are counted as confirmed, beyond them only outputs of transactions with a confirmed recorded spend, and of those all whose recorded spends are all confirmed |
| Wallets.Wallet.GatherCoins | wallet/wltbtc/send.go:80-102 | the coins are exactly the outputs that are neither watch-only nor frozen, nor unconfirmed if those are excluded, once each, with value, script and depth |
| Wallets.CoinsAreOutputs | wallet/wltbtc/send.go:80-102 | a coin has the value and script of an output on offer; confirmations and height of a confirmed one add up to the tip, an unconfirmed one has none |
| Wallets.OfferedPlusLocked | wallet/wltbtc/send.go:84-93 | the coins on offer with unconfirmed ones and the locked ones make up confirmed plus unconfirmed |
| Wallets.OfferedConfirmed | wallet/wltbtc/send.go:91-93 | without the unconfirmed ones no more is on offer than the balance reports as confirmed |
| Wallets.Wallet.FreezeUTXO | wallet/wltbtc/wallet.go:494-505 | the output named, and nothing else, becomes frozen; false if it is not there |
| Wallets.Wallet.UnFreezeUTXO | wallet/wltbtc/wallet.go:507-518 | the output named, and nothing else, stops being frozen; false if it is not there |
| Wallets.FreezeLocks | wallet/wltbtc/wallet.go:494-505 | freezing locks exactly that output and takes it off both offers; nothing else moves |
| Wallets.UnFreezeOffers | wallet/wltbtc/wallet.go:507-518 | thawing unlocks exactly that output and puts it back on offer, without the unconfirmed ones only if it is confirmed |
| Wallets.NothingToFreeze | wallet/wltbtc/wallet.go:494-518 | freezing or thawing what is not there changes nothing |
| Hex.DecodeEncode | electrumx/node_headers.go:390-393 | decoding undoes the server's encoding of every byte string |
| Hex.DecodesIff | electrumx/node_headers.go:390-393 | a string decodes to the bytes that its pairs of digits name, in lower or upper case, and to nothing else; an odd length or another character does not decode |
| Records.CutJoin | electrumx/node_headers.go:309-311 | cutting a concatenation of equal-sized pieces gives the pieces back |
| Records.JoinSlice | electrumx/node_headers.go:311 | piece i of a concatenation is the slice at i times the size |
| ChainSafety.FileMirrorsMap | electrumx/headers.go:258-269 | on a good chain the file is as long as the tip says, and the map entry at a height is what the file's slice for it decodes to |
| ChainSafety.ConnectTipKeeps | electrumx/node_headers.go:320-349 | one header leaves a good chain good, and it grows by one, stays, or loses exactly its top eight |
| HeaderOutcomes.ConnectTipIff | electrumx/node_headers.go:320-382 | on any chain a hex is refused if and only if it is not that of one whole header, and connects if and only if that header follows the one at our tip, with file, maps, tip and recovery as they then are; eight headers go only where it does not follow and a rewind is possible |
| HeaderOutcomes.LosesOnlyToStrays | electrumx/node_headers.go:320-349 | on a good chain a hex that is no header changes nothing, and the tip falls only if the header does not follow it |
| ChainSafety.RewindKeeps | electrumx/node_headers.go:362-382 | a rewind succeeds exactly when the tip is at least eight above the start point, and then file, map and links agree eight lower |
| ChainSafety.RewindAndClientTip | electrumx/headers.go:224-234 | the tip shown to clients is unmoved by a rewind if and only if recovery was off, and otherwise falls by eight |
| HeaderExamples.SecondRewindLowersClientTip | electrumx/node_headers.go:326-382 | two notifications of a header that follows none of ours: the first leaves the tip shown at 16, the second lowers it to 8 |
| ChainSafety.ConnectAllKeeps | electrumx/node_headers.go:266-318 | after k headers connected the tip is k higher, or k less eight after a rewind, and below both ends nothing of the old chain changed |
| ChainSafety.HandleIsConnect | electrumx/node_headers.go:198-318 | a notification of one, a few or many headers connects the headers it brings one after the other |
| ChainSafety.HandleKeeps | electrumx/node_headers.go:206-382 | bounded loss for one notification: at most eight old heights go, the rest is a prefix of the new chain |
| ChainSafety.HandleTells | electrumx/node_headers.go:206-248 | the client is told a tip exactly when headers connected, and it is the tip where the chain ends; a notification below the start point cancels and changes nothing |
| HeaderOutcomes.ConnectsInTurn | electrumx/node_headers.go:252-318 | the headers connect one by one up to the first that is missing or does not connect, and that one decides how it ends |
| HeaderOutcomes.HandleLosesOnlyToStrays | electrumx/node_headers.go:206-349 | a notification costs headers only if one it brings decodes and does not follow the tip as it then stands; one refused leaves what connected before |
| HeaderOutcomes.NextNeedsNoServer | electrumx/node_headers.go:226-236 | a header for the height above our tip is taken from the notification, whatever the server would answer |
| HeaderOutcomes.FewComeOneByOne | electrumx/node_headers.go:252-281 | up to eight missing headers depend only on the server's answers for exactly their heights |
| HeaderOutcomes.ManyComeAsChunk | electrumx/node_headers.go:252-293 | more than eight depend only on its answer to one request for exactly those |
| HeaderOutcomes.BadChunkIsRefused | electrumx/node_headers.go:283-307 | a chunk changes nothing if the request fails, the server allows fewer than 2016, or count or length are not what was asked for |
| ChainSafety.RunKeepsChain | electrumx/node_headers.go:198-404 | over every run against any server: file length, map domain, entries decoded from the file and links stay right, the start header never changes, and while recovering the client tip is the tip plus eight |
| ChunkRefinesBlocks.ChunkIsBlocks | electrumx/node_headers.go:252-318 | a chunk that concatenates the per-height answers connects as many headers and leaves the same file, maps, tip and recovery state, bad hex and reorgs included |
| Reorg.PartedStayApart | electrumx/node_headers.go:351-361 | linked chains that differ at one height have different hashes at every height above |
| Reorg.FaithfulIncoming | electrumx/node_headers.go:252-318 | a faithful answer brings the server's headers above our tip, in either way of asking |
| Reorg.RewindsWhereApart | electrumx/node_headers.go:326-340 | where the chains differ at our tip a faithful notification connects nothing and takes eight headers off |
| Reorg.ConnectsWhereAgreed | electrumx/node_headers.go:320-349 | where they agree at our tip every header connects up to the height asked for |
| Reorg.Converges | electrumx/node_headers.go:198-382 | from a fork f at least startPoint + 7 and a tip t above it, ceil((t - f) / 8) + 1 or more faithful notifications make our chain the server's up to the last notified height, with no panic |
| HeaderSync.StoreAllHolds | electrumx/headers.go:195-215 | reading succeeds exactly when every record decodes, and then each stands at its height and nothing else changes |
| HeaderSync.StoredUpTo | electrumx/headers.go:195-215 | whether reading succeeds or stops, exactly the records before the first that does not decode stand at their heights |
| HeaderSync.ReverseUpTo | electrumx/headers.go:195-215 | the reverse map gives each hash read the last height at which a record has it, and keeps all other entries |
| HeaderSync.VerifiedIff | electrumx/headers.go:273-292 | verification succeeds exactly when every link down to its end holds; otherwise it names the highest broken one, or stops where a header is missing, with all links above in order |
| HeaderSync.GatherCounts | electrumx/node_headers.go:42-114 | the file ends as long as the headers that came, the tip as high as the counts the server gave |
| SyncOutcomes.GatherEnds | electrumx/node_headers.go:42-114 | gathering ends well if and only if some full chunks are followed by one that is not full, each of whole headers; how it ends otherwise, with the first request failing harder; the file gains what came and the tip what was counted |
| SyncOutcomes.SyncedIff | electrumx/node_headers.go:23-140 | a sync succeeds if and only if the file is whole headers, full chunks are followed by a short one, every record decodes and each up to the counted tip follows the one before it; only then are the headers marked as synced |
| SyncOutcomes.SyncedNeedsShort | electrumx/node_headers.go:50-114 | no sync succeeds on a failed request, nor before an answer with fewer than 2016 headers |
| SyncOutcomes.UnsyncedEnds | electrumx/node_headers.go:50-140 | how every other sync ends, and that one which does not gather everything leaves maps and tip alone |
| SyncOutcomes.HonestSync | electrumx/node_headers.go:23-140 | with a server that answers every request with the headers it has, from an empty file or one of its own headers, the sync succeeds at its tip with a good chain that is the server's |
| SyncOutcomes.SyncsIffMeets | electrumx/node_headers.go:23-140 | from any file of linked headers it succeeds if and only if the server's next header follows the last one in the file |
| SyncOutcomes.RestartSyncsIff | electrumx/node_headers.go:23-140 | after any run a restart against a server that has gone on succeeds if and only if the server has our last header's hash at our tip, and then keeps our headers and adds the server's |
| HeaderSync.SyncedIsGoodIff | electrumx/node_headers.go:23-140 | a sync that succeeds leaves a good chain if and only if there is at least one header and as many came as were counted |
| HeaderExamples.SyncEndsWithWrongTip | electrumx/node_headers.go:42-114 | an answer that says one header and holds two ends the sync well, with a chain that is not good |
| HeaderSync.SyncGivesChain | electrumx/node_headers.go:23-140 | answers that hold as many headers as they say are enough for that |
| HeaderSync.RestartRebuilds | electrumx/headers.go:195-215 | reading a good chain's file at the start point rebuilds the same height map and tip |
| HeaderSync.SyncRunRestart | electrumx/node_headers.go:23-140 | first sync, any run of notifications against any server, and a restart that finds the same map and tip |
| HeaderStore.Headers.BytesToNumHdrs | electrumx/headers.go:299-312 | the number of whole headers, and an error exactly when the bytes are not whole headers |
| HeaderStore.Headers.AppendHeadersFile | electrumx/headers.go:119-135 | whole headers are appended and counted; anything else leaves the file as it is |
| HeaderStore.Headers.TruncateHeadersFile | electrumx/headers.go:137-166 | drops that many headers from the end, down to an empty file, and counts what is left; refuses exactly before sync, for zero, and on a corrupt file |
| HeaderStore.Headers.Store | electrumx/headers.go:195-215 | the maps after the loop, also where it stops at a header that does not decode |
| HeaderStore.Headers.RemoveOneHdrFromTip | electrumx/headers.go:217-222 | the tip header leaves the height map, and only that map |
| HeaderStore.Headers.StoreOneHdr | electrumx/headers.go:258-269 | the header stands one above the old tip in both maps |
| HeaderStore.Headers.GetClientTip | electrumx/headers.go:229-234 | while recovering, the tip from before the rewind, eight above the current one after a single rewind |
| HeaderStore.Headers.CheckCanConnect | electrumx/headers.go:248-256 | yes means that the header put above the tip is linked to it; a tip without a header stops the program |
| HeaderStore.Headers.VerifyFromTip | electrumx/headers.go:273-292 | verified exactly when all links from the tip down to the depth, or to the start point, hold |
| HeaderStore.Headers.GetBlockHeaders | electrumx/headers.go:338-366 | answers exactly the ranges that start within the chain and end below the tip, with the headers of those heights in order |
| NodeHeaders.Node.ReorgRecovery | electrumx/node_headers.go:362-382 | file truncation, eight single removals and the recovery fields are together the specified rewind |
| NodeHeaders.Node.ConnectTip | electrumx/node_headers.go:320-349 | one header handled as specified, in each of its four outcomes, which `HeaderOutcomes.ConnectTipIff` characterises |
| NodeHeaders.Node.UpdateFromBlocks | electrumx/node_headers.go:266-281 | the loop of single requests connects the answers up to the first that fails |
| NodeHeaders.Node.UpdateFromChunk | electrumx/node_headers.go:283-318 | the checks on the reply and the loop over its slices are the specified chunk update |
| NodeHeaders.Node.SyncHeadersOntoOurTip | electrumx/node_headers.go:252-264 | more than eight missing headers come as a chunk, fewer one by one |
| NodeHeaders.Node.HandleNotification | electrumx/node_headers.go:206-248 | one notification as specified, with what the client is told |
| NodeHeaders.Node.HeaderQueue | electrumx/node_headers.go:198-250 | the chains seen while the queue is worked off form a run in the sense of the theorems; it stops early only when cancelled or panicking |
| NodeHeaders.Node.GatherFrom | electrumx/node_headers.go:42-114 | the chunk loop, with its different handling of failures in the first chunk; the requests made are for 2016 headers each, one above the other from the end of the file, and stop with the first answer that is not a full chunk |
| NodeHeaders.Node.SyncNetworkHeaders | electrumx/node_headers.go:23-140 | the whole first sync, ending as specified with the specified chain and with exactly those requests made; `SyncOutcomes.SyncedIff` says when it succeeds |
| KeyTables.TwoWindows | wallet/bdb/keys.go:154-178 | bolt's window is never below sqlite's on the same table, and equal exactly when no unused key of the purpose precedes a used one |
| KeyTables.FreshKeeps | wallet/wltbtc/keys.go:86-117 | issuing the next derivable key keeps indexes rising and skips only underivable ones |
| KeyTables.SameKey | wallet/wltbtc/keys.go:86-117 | the k-th key issued for a purpose is the same on either store and under any pattern of use |
| KeyTables.MarkStepKeeps | wallet/wltbtc/keys.go:144-149 | marking any address keeps both windows at the gap limit and the table right |
| KeyTables.WindowsStayFull | wallet/wltbtc/keys.go:144-173 | after construction on an empty store and after any sequence of marks both windows are exactly 10 keys by the store's own count |
| KeyTables.RunAfterMark | wallet/bdb/keys.go:154-178 | the length of the unused run at the end after bolt marks a key: one more than it was after that key or after the last used one, and one where the newest key is marked |
| KeyTables.InTurnKeeps | wallet/wltbtc/txstore.go:130-153 | marking any number of keys, as adding a transaction does, keeps both windows full and forgets no key |
| KeyTables.StepUses | wallet/wltbtc/keys.go:144-149 | a mark makes the key marked used, if it is stored, and no other |
| KeyTables.TurnUses | wallet/wltbtc/txstore.go:130-153 | of the keys stored before, exactly those marked become used |
| TxStores.PaidKeysAreUsed | wallet/wltbtc/txstore.go:130-153 | adding a transaction makes used exactly the keys that its outputs to own scripts pay, of those stored before |
| KeyTables.StoresAgree | wallet/wltbtc/keys.go:75-84 | if keys are always marked in the order they are handed out, both stores hold the same table after every step |
| Keys.SortedColumn | wallet/bdb/keys.go:238-266 | the list sorted by index shows of each purpose what the table holds, whatever the order among equal indexes |
| Keys.FreshIsUnknown | wallet/wltbtc/keys.go:94-112 | a key further on than those issued has an address the table does not hold |
| Keys.KeysDB.Put | wallet/db/keys.go:19-35 | a new address adds one unused row; on a known one sqlite fails and bolt (wallet/bdb/keys.go:24-32) overwrites it |
| Keys.KeysDB.MarkKeyAsUsed | wallet/db/keys.go:37-57 | exactly the row of the address becomes used; an unknown address is an error in bolt (wallet/bdb/keys.go:34-41) only |
| Keys.KeysDB.GetPathForKey | wallet/db/keys.go:84-104 | the purpose and index stored with an address, and none exactly for an unknown one |
| Keys.KeysDB.GetAllSorted | wallet/bdb/keys.go:238-266 | every record once, by rising index |
| Keys.KeysDB.GetLastKeyIndex | wallet/bdb/keys.go:45-64 | the greatest index of the purpose in bolt, the last inserted in sqlite (wallet/db/keys.go:59-82); both the last on a table in index order; none exactly when there is none |
| Keys.KeysDB.GetUnused | wallet/bdb/keys.go:77-89 | the indexes of the unused keys of a purpose, in order |
| Keys.KeysDB.GetAll | wallet/bdb/keys.go:91-105 | the paths of all keys, once each, by rising index in bolt and in any order in sqlite (wallet/db/keys.go:127-151) |
| Keys.KeysDB.GetLookaheadWindows | wallet/bdb/keys.go:154-178 | per purpose, all unused keys in bolt, the trailing unused run in sqlite (wallet/db/keys.go:161-188) |
| Keys.KeysDB.TrailingRun | wallet/db/keys.go:171-182 | the length of the unused run at the end |
| Keys.KeyManager.constructor | wallet/wltbtc/keys.go:23-39 | both windows are filled up to the gap limit over what the store holds |
| Keys.KeyManager.GetFreshKey | wallet/wltbtc/keys.go:86-117 | the record appended is for the first derivable index after the last issued one |
| Keys.KeyManager.FillWindow | wallet/wltbtc/keys.go:163-170 | exactly the missing number of unused keys is appended for one purpose, and none for the other |
| Keys.KeyManager.Lookahead | wallet/wltbtc/keys.go:160-173 | both windows are filled from the sizes they had, in either order |
| Keys.KeyManager.GetUnusedKey | wallet/wltbtc/keys.go:75-84 | the oldest unused key of the purpose, and none exactly when all are used |
| Keys.KeyManager.GetKeys | wallet/wltbtc/keys.go:119-133 | the addresses of exactly the keys stored |
| Keys.KeyManager.MarkKeyAsUsed | wallet/wltbtc/keys.go:144-149 | the key is marked and the windows filled up; bolt refuses an unknown address and leaves everything |
| Keys.KeyManager.GetKeyForScript | wallet/wltbtc/keys.go:135-141 | the key that was issued for the address, and none exactly if none was |
| ServerConns.ServerConn.NextID | electrumx/server_connection.go:66-68 | ids count up modulo 2^64 |
| ServerConns.ServerConn.RegisterRequest | electrumx/server_connection.go:255-261 | a new channel is pending under the id |
| ServerConns.ServerConn.ResponseChan | electrumx/server_connection.go:263-269 | hands out the channel of an id once and nothing for an unknown or repeated id |
| ServerConns.ServerConn.Send | electrumx/server_connection.go:137 | the response enters a channel that is open and empty |
| ServerConns.ServerConn.CancelRequests | electrumx/server_connection.go:273-280 | exactly the pending channels are closed, once each, and forgotten, in any order |
| ServerConns.InvIsSafe | electrumx/server_connection.go:137 | in a good state the listener's next send neither panics nor blocks and no channel is closed twice |
| ServerConns.StepKeepsChannel | electrumx/server_connection.go:255-280 | each step of any actor keeps every channel untouched while pending and served exactly once after |
| ServerConns.StepKeepsReplies | electrumx/server_connection.go:362-366 | each step keeps it so that a requester has the response to its own request exactly if one was sent and is no longer in its channel, that it is told of a closed channel only once the listener has stopped, and that the node is cancelled exactly if the listener has stopped or somebody left with nothing |
| ServerConns.StepKeepsRequester | electrumx/server_connection.go:345-380 | where a requester is changes only by its own actions |
| ServerConns.ReceiveGets | electrumx/server_connection.go:362-371 | a requester that takes what is in its channel ends with the response to its own request if one was sent, and with a closed channel otherwise |
| ServerConns.MessageReaches | electrumx/server_connection.go:131-138 | a message with the id of a pending request ends up in that requester's channel, from which it is answered, and changes nothing for others |
| ServerConns.StrangerIsDropped | electrumx/server_connection.go:131-138 | a message with any other id changes nothing |
| ServerConns.StopReleases | electrumx/server_connection.go:273-280 | once the listener stops everybody who waits can go on: with the response if it came, with a closed channel exactly if the request was still pending |
| ServerConns.SafeRun | electrumx/server_connection.go:131-138 | all of the above under every interleaving of requesters with the listener and every sequence of ids the server sends |
| Peers.WithoutHas | electrumx/network.go:225-236 | removing ids leaves exactly the peers with other ids |
| Peers.ReapIsExact | electrumx/network.go:307-320 | where no connection ends meanwhile, reaping leaves exactly the live peers in order |
| Peers.ReapKeeps | electrumx/network.go:307-320 | leaving peers out keeps ids distinct and live peers at different addresses |
| Peers.Network.AddPeer | electrumx/network.go:220-222 | the peer joins at the end; with the next id, room in the list and no live peer at its address, the list stays in order |
| Peers.Network.RemovePeer | electrumx/network.go:225-236 | the peers with that id go, the others keep their order |
| Peers.Network.ReapDeadPeers | electrumx/network.go:307-320 | every peer dead at the start goes, every peer that goes is dead by the end, the others keep their order |
| Peers.Network.AvailableServers | electrumx/network.go:356-384 | no server with a live peer is offered, every allowed server that had none is, onions go only to peers and through a proxy; exactly those where no connection ends meanwhile; that of a live promoted leader never |
| Peers.LeaderDialledAgainIff | electrumx/network.go:356-384 | the address of a live leader is among the servers without a live peer if and only if it was started as leader and no live peer is connected there |
| Peers.PromotedIsNeverOffered | electrumx/network.go:271-305 | a live leader promoted from the list has its address taken, so it is never offered |
| Peers.Network.StartNewPeer | electrumx/network.go:168-209 | the address is dialled; a node that comes up gets the next id and leads or joins the list, one that does not changes nothing |
| Peers.Network.CheckLeader | electrumx/network.go:271-305 | a live leader stays and nothing is dialled; a dead or missing one is replaced by a peer that was alive whenever some peer can be promoted; where all peers are dead and some server can lead, one is dialled; the list is not touched |
| Peers.Network.StartNewLeader | electrumx/network.go:386-404 | one server that can lead is dialled if there is one without a live peer, and leads with the next id if it comes up |
| Peers.Network.StartNewPeerMaybe | electrumx/network.go:322-345 | below the limit one server that is allowed and has no live peer is dialled if there is one, and joins if it comes up; at the limit none; the list is otherwise only reordered |
| Peers.Network.Tick | electrumx/network.go:264-268 | whoever was dead at the start is out of the list and whoever is alive at the end stays; at most one peer is new; where there is room, or will be once the dead are gone, and a server is free, one is dialled; a live leader stays, a dead one stays only if no peer lives |
| Peers.Network.PeersMonitor | electrumx/network.go:253-269 | over any number of ticks ids stay distinct, the list within its limit, and no two live peers at one address; from one tick to the next the dead go and the living stay; at shutdown every peer is cancelled |
| Peers.Network.CancelAll | electrumx/network.go:258-262 | at shutdown every peer in the list is cancelled |
| Peers.OffersLeaderAgain | electrumx/network.go:356-404 | a network with one known server starts it as leader, and the server is still offered for a peer |
| Peers.DialsLeaderAgain | electrumx/network.go:322-404 | the first peer of such a network is connected to the server that leads |
| Rescan.RescanWallet | client/btc/rescan.go:26-89 | subscribes exactly the used keys with index up to min(100, L + 11), each once and in order, L being the largest used index reached from 0 by hops of at most eleven |
| Rescan.NothingBeyond | client/btc/rescan.go:83-88 | past an unused stretch of the gap limit plus one nothing is reached |
| Rescan.FoundAgainIff | client/btc/rescan.go:26-89 | every used key up to index 100 is found again if and only if no gap between used indexes is wider |
| Rescan.AllFoundIff | client/btc/rescan.go:26-89 | where every subscription succeeds, all keys of either branch with a history up to index 100 are subscribed if and only if each used index is at most eleven above another one or 0 |

## Left out

- Sockets, TLS, Tor, JSON, timers, pings and file-system errors: sends, replies and file writes are single steps with arbitrary replies.
- Hashing, header layout, key derivation, address encoding, script parsing and signing: abstract functions, injective where a theorem says so; a header deserializer is taken to read one record of the header size.
- Integer widths other than the request id and the peer id: amounts, heights and key indexes are unbounded, so overflow of 64-bit sums and indexes of 2^32 and above are not modelled.
- Timestamps of transactions, and the errors of decoding a stored transaction; TxStores.TxStore.AddTransaction and TxStores.TxStore.Settle store none.
- TxStores.TxStore.CheckSanity: the library's checks of transaction size, coinbase script length and null inputs are one yes or no that comes with the transaction.
- Watch-only outputs are read everywhere but no modelled operation creates one (`Hits.NeverWatchOnly`).
- LedgerRuns.NoDoubleSpends: takes a txid to stand for one transaction.
- Disjointness.NeverBothUnspentAndSpent: needs transactions ordered by some rank, which hashes provide, and that wallet outputs are spent only once confirmed, as the coin gathering for a spend allows to ask for; `Overlap.NeverBothIff` is exact.
- Conservation.Conserved: of the calls that move something it needs heights from 0 on, transactions ordered by some rank, one transaction per txid, parents added before live children (all in `Orderly`), dead transactions added again only where their stored value is what they are worth now, and that a live transaction added again has its own outputs in the tables already (`CreditedBefore`); negative heights, dead ones and late outputs are shown to be needed by `LedgerExamples.NegativeHeightLosesBalance`, `ConfirmingDeadChildLosesBalance` and `LateScriptLosesBalance`.
- Pricing.ConservedTidy: its premises on transactions added again are sufficient for a whole run; for a single call `ReAdding.BalanceExact` is exact.
- TxStores.TxStore.UpdateSpendHeight: which of several spends of a transaction gets the height is left to the table's order.
- The reverse map from hash to height: it is proved to hold every chain header; entries of rewound headers stay in it, as in the code.
- A second leader that syncs during recovery; the header theorems cover the life of one leader after sync.
- The truncation of heights to 32 bits in single-header requests.
- Keys.KeyManager.GetFreshKey: takes some derivable index to exist above every index, without which the loop would not end.
- MarkAddressUsed of the wallet, which marks a key without filling the window.
- ServerConns.SafeRun: takes fewer than 2^64 requests per connection; after that an id can repeat while pending.
- Peers.Network.PeersMonitor: takes fewer than 2^32 peers in all; updates of the list of known servers are not modelled, any list may be known at any time.
- Rescan.RescanWallet: a lookup that fails counts as an unused key, as in the code.
- reverseHash, single-header lookup, subscriptions, fee and rate providers, encryption, the RPC server and the command-line tools: little state.
- The same code for other coins, and the in-memory mock stores, whose keys differ from the real ones.

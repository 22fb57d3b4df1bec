# Models of a Go Ethereum node

This project states, in Dafny, what several stateful parts of the node keep and achieve, and proves it
for all inputs, all interleavings and all reachable states.

**The transaction pool** (`Transactions`, `Heaps`, `AccountLists`, `TxLists`, `PricedLists`, `Lookups`, `Evictions`,
`PoolInvariants`, `PoolMoves`, `PoolTruncation`, `PoolRules`, `Pools`, `PoolResets`, `PoolExamples`). Each transaction is
held in a hash lookup, in a nonce list of its account, in a heap of nonces with a sorted cache, in two price heaps and in a table
of virtual nonces. The classes `TxSortedMap` and `TxList` are proved to do what the plain functions of
`AccountLists` say. The pool works on values of those functions. `TxPool.Valid` says that all records
agree, `TxPool.Steady` that each account's pending nonces are exactly the interval from its state nonce up
to its virtual nonce, `TxPool.Payable` that every pending transaction is within its sender's means, and
`TxPool.NotReady` that an account's next transaction is not left waiting in the queue. Every operation keeps
the first, and the others as its contract says. Promotion and demotion are specified account by account on
plain maps, without the cached caps, so the contracts of a whole run say exactly what each account keeps.
`truncatePending` is proved to be exact water filling. No transaction of a local account is ever evicted. `PoolRules`
says what the verdict on one transaction and on a batch depends on; a reset is followed from the two heads, through the
blocks it drops, to the transactions that are back in the pool.

**The background runs of the pool** (`ReorgLoop`). The loop that merges requests and starts runs is a state
machine over its steps; the theorems hold in every reachable state, and say what became of every request that arrived.

**The canonical chain** (`ChainIndex`, `HeaderChains`, `BlockChains`, `Rewinding`, `Ancestors`). `Ancestor` follows
parent hashes; `IsPath` says that the index of canonical hashes holds exactly the ancestors of the head and
nothing above. Loops that stop early (at the first empty number, at the first marker that already fits)
are shown to leave exactly that.

**The section indexer** (`ChainIndexers`). Every stored section head leads back to the one before it, so one
comparison is enough. A round of the update loop lets go of the indexer's lock while it processes a section; others
may do anything meanwhile, and any number of such rounds keeps the heads linked. If nobody interferes and the chain is
complete, as many rounds as there are known sections store them all.

**The event feed** (`Feeds`). Subscribe, unsubscribe and send are broken into atomic steps that interleave in
any order. The run is compared with a roster kept from its events alone, without lists, locks or indices.

**Gas and fees** (`StateTransitions`, `StateProcessors`), and **derivation paths** (`HdPaths`).

Addresses and hashes are natural numbers. Hash 0 stands for the zero hash, which names no block. Numbers are
unbounded unless the model says otherwise; 64-bit limits are written out where the source relies on them
(gas pool, intrinsic gas, block numbers of the hash function) and 32-bit limits in derivation paths. Maps
stand for the database, and a hash names one header for ever.

Where the code does less than one might expect, the model keeps the code and states exactly when the
property holds:

- `TxPool.RunReorg`, next transaction: a run with a reset asks each queue for the transactions from the nonce in
  the new state on, although the account may still have pending ones. The transaction that follows those is then not
  moved, even if a caller asked for it to be promoted. After the moves of such a run an account's next transaction is
  still queued if and only if it was `LeftBehind`: it follows the promoted and the pending ones, these are payable, and
  the queue keeps it. If no nonce fell this says that it was `Overlooked`: the virtual nonce was below the end of the
  pending ones, all of these are payable, and the one that follows is queued and payable. `OverlookedExample` is an
  instance. A run without a reset leaves nothing behind.
- `TxPool.RunReorg`, intervals: if an account's nonce falls, the moves of a run leave its pending nonces an exact
  interval if and only if it is not `Gapped`: queued transactions are promoted from the fallen nonce on and
  end below the pending ones, the first of which is payable. `GappedExample` is an instance. If no nonce falls, there
  is no gap.
- `TxPool.MakeRoom`: a transaction that left the pool and came back can have two entries in the price heaps, and
  both count as slots to be freed. Every request that the heaps cover is met, whichever entries are dropped, if and only
  if no remote transaction that takes up slots has two entries (`MetIffNoneTwice`). An eviction falls short by no more
  than the surplus the heaps count, and a request for more than all remote slots is never met. `DoubleEntryExample` is
  an instance: a pool of four slots grants a transaction two, evicts the same transaction for both, and has no room.
- `HeaderChain.WriteHeaders`: if every header of a preferred batch was known already, the markers of the
  batch are not written. The index is exact afterwards if and only if it is not such a `KnownMove` to another head.
  `KnownBatchExample` is an instance that starts from a genesis: the coin toss moves the head to a known sibling.
- `BlockChain.ChooseHead`: the clean-up above the new head starts at the block that is the head at that time.
  The index is exact afterwards if and only if the new head is no lower than the old one or its parent was
  not canonical. `ShortReorgExample` is an instance of the other case: a block of difficulty 2 ties with two of
  difficulty 1 and wins by its lower number.
- `ChainDb.SetHead`, head block: a head block below the target is never moved. The head block can be built on
  afterwards, having state or being the genesis, if and only if it could before, or the head header was above the target and
  the head block not below it. `StatelessHeadExample` is an instance of the other case.
- `ChainDb.SetHead`, head block at the target: the head block is taken down once for each header passed, and a missing
  body or the pivot on the way sends it to the genesis for good. A head block not below the target ends at the highest
  block with state that the rewind from the target reaches if and only if no step above stopped it (`Clear`); it ends at
  the target itself if and only if moreover that has a body and state. `StoppedAboveExample` is an instance of the other
  case: the target has both, but the head block ends at the genesis.
- `ChainDb.SetHead`, leftovers: a target at or above the head header changes nothing. No header is left above the
  target if and only if the head header was above it or there was none. `LeftoverExample` is an instance of the other
  case.
- `StateTransition.BuyGas`: the two shares of a meta transaction are compared with the balances one by one. Buying gas
  overdraws nobody, except that a sender who is its own fee payer is not overdrawn if and only if its balance covers both
  shares (`NoOverdraft`). `OverdraftExample` is an instance of the other case.
- `GetAncestor`: the zero hash names no block, but the empty entries above the head look like it. It is answered
  with a canonical hash if and only if its number is above the head, the ancestor's is not, and the ancestor is not
  the parent.

## Model

| member | source | states |
|---|---|---|
| Transactions.SlotsCover | geth/core/tx_pool.go:1893-1896 | the slots of a transaction cover its size in units of 32 KB, and one fewer would not |
| Heaps.RootIsLeast | geth/core/tx_list.go:34-55 | the root of a heap comes first among all its entries |
| Heaps.Push | geth/core/tx_list.go:34-55 | pushing keeps the heap order and adds exactly one entry |
| Heaps.Pop | geth/core/tx_list.go:34-55 | popping returns an entry no other precedes, keeps the heap order and removes exactly that entry |
| Heaps.Init | geth/core/tx_list.go:117-126 | any sequence becomes a heap of the same entries |
| Heaps.Remove | geth/core/tx_list.go:171-195 | removing at an index keeps the heap order and removes exactly that entry |
| AccountLists.AddKeepsGood | geth/core/tx_list.go:282-314 | an accepted transaction keeps every transaction filed under its nonce and below both caps |
| AccountLists.OutbidsMeans | geth/core/tx_list.go:282-304 | the replacement rule in numbers: both caps higher, by the bump in percent rounded down; of two transactions at most one outbids the other |
| AccountLists.FilterIsPlain | geth/core/tx_list.go:333-362 | the short-circuiting filter removes exactly the unpayable transactions, and in a strict list invalidates exactly those above the lowest removed one; the rest stays, within the caps |
| AccountLists.FilterTakes | geth/core/tx_list.go:333-362 | in numbers: a transaction is removed exactly if its cost or its gas is above the limit, and any other leaves only a strict list |
| AccountLists.FilterKeepsContiguous | geth/core/tx_list.go:333-362 | a strict contiguous list stays contiguous under filtering |
| AccountLists.CapKeepsContiguous | geth/core/tx_list.go:366-369 | a contiguous list stays contiguous when capped |
| AccountLists.CuttingKeepsContiguous | geth/core/tx_list.go:320-391 | a contiguous list stays contiguous under forwarding and strict removal |
| AccountLists.LowestUnique | geth/core/tx_list.go:146-168 | only one set of k nonces lies below all the others |
| TxLists.ListingUnique | geth/core/tx_list.go:219-240 | there is only one ascending list of a map's transactions |
| TxLists.PopBelow | geth/core/tx_list.go:87-105 | popping the index below a threshold takes out exactly the lower nonces in order, and keeps index and cache in step with the map |
| TxLists.PopRun | geth/core/tx_list.go:197-213 | popping from the lowest nonce takes out exactly the maximal run of consecutive nonces |
| TxLists.CapItems | geth/core/tx_list.go:146-168 | exactly the lowest nonces stay, the index is a heap over them, and the shortened cache still lists them |
| TxLists.TxSortedMap.Put | geth/core/tx_list.go:76-83 | the map gains the transaction, the index stays a duplicate-free heap over exactly its nonces, the cache is dropped |
| TxLists.TxSortedMap.Forward | geth/core/tx_list.go:87-105 | removes exactly the nonces below the threshold and returns them in order |
| TxLists.TxSortedMap.Filter | geth/core/tx_list.go:108-143 | removes and returns exactly the matching transactions and rebuilds the index |
| TxLists.TxSortedMap.Cap | geth/core/tx_list.go:146-168 | keeps exactly the lowest nonces and returns the others |
| TxLists.TxSortedMap.Remove | geth/core/tx_list.go:171-195 | removes the nonce if present, from map and index, and drops the cache |
| TxLists.TxSortedMap.Ready | geth/core/tx_list.go:197-213 | removes and returns the run of consecutive nonces from the lowest, if that is not above the start |
| TxLists.TxSortedMap.Flatten | geth/core/tx_list.go:219-240 | returns the strictly ascending list of the map's transactions and caches it |
| TxLists.TxSortedMap.LastElement | geth/core/tx_list.go:244-247 | returns the transaction with the highest nonce |
| TxLists.TxList.Add | geth/core/tx_list.go:282-314 | refines the plain insertion: replaces only a transaction it outbids, raises the caps |
| TxLists.TxList.Forward | geth/core/tx_list.go:320-322 | refines the plain cut at a nonce |
| TxLists.TxList.Filter | geth/core/tx_list.go:333-362 | refines the plain filter, with the caps lowered to the limits |
| TxLists.TxList.Cap | geth/core/tx_list.go:366-368 | refines the plain cap |
| TxLists.TxList.Remove | geth/core/tx_list.go:373-391 | refines the plain removal: in a strict list everything above the nonce goes too and is returned |
| TxLists.TxList.Ready | geth/core/tx_list.go:393-395 | refines the plain run of ready transactions |
| TxLists.TxList.Flatten | geth/core/tx_list.go:410-412 | returns the ascending list of the transactions |
| PricedLists.PriceOrder | geth/core/tx_list.go:432-456 | the price order is a strict weak order for every base fee |
| PricedLists.RankMeans | geth/core/tx_list.go:432-456 | the order in numbers: at a base fee the lower of tip cap and fee cap less base fee decides, then and without a base fee the fee caps, then the tip caps; of equals the higher nonce ranks below |
| PricedLists.StaysDearer | geth/core/tx_list.go:566-602 | an evicted transaction that was not floating leaves behind none with both a lower fee cap and a lower effective tip |
| PricedLists.UnderpricedFor | geth/core/tx_list.go:542-562 | stale entries at the root are dropped and no others; the answer is yes exactly if a live entry exists and none ranks below the transaction |
| PricedLists.Evict | geth/core/tx_list.go:566-592 | the eviction loop terminates, pops only from non-empty heaps, returns only live entries, no more than needed, loses no live entry, takes the worst-ranked entries of each heap first, and ends with at most four urgent entries for each floating one and four more; unless it was floating from the start, no evicted entry ranks above one that is left in both orders |
| PricedLists.UrgentWent | geth/core/tx_list.go:569-577 | an entry that leaves the urgent heap ranks no higher than any that stays |
| PricedLists.FloatingWent | geth/core/tx_list.go:578-592 | an evicted entry ranks no higher than any still floating, unless that came from the urgent heap later |
| PricedLists.SameLiveSlots | geth/core/tx_list.go:542-562 | dropping stale entries changes no live slot |
| PricedLists.TakeWorst | geth/core/tx_list.go:605-630 | pops the given number of worst entries; none that stays is worse |
| PricedLists.PricedList.Put | geth/core/tx_list.go:509-515 | only remote transactions enter, on the urgent heap |
| PricedLists.PricedList.Underpriced | geth/core/tx_list.go:532-538 | true exactly if some live remote entry exists and no live entry of either heap pays less in that heap's order; a transaction with a higher effective tip than a live urgent entry, or a higher fee cap than a live floating one, is never underpriced |
| PricedLists.PricedList.Discard | geth/core/tx_list.go:566-602 | succeeds exactly if forced or enough live slots exist; returns live remotes that cover the request without surplus entry, worst-ranked first, none of them dearer in fee cap and effective tip than one that is left unless it was floating; a refusal leaves the live contents as they were |
| PricedLists.PricedList.Reheap | geth/core/tx_list.go:605-630 | every remote transaction is in the heaps exactly once, the cheapest fifth floating |
| PricedLists.PricedList.Removed | geth/core/tx_list.go:520-528 | the heaps are rebuilt with every remote transaction once exactly if the stale counter exceeds a quarter of the entries, and are untouched otherwise |
| PricedLists.PricedList.SetBaseFee | geth/core/tx_list.go:633-636 | the heaps are rebuilt under the new base fee with every remote transaction once |
| Lookups.TxLookup.Add | geth/core/tx_pool.go:1830-1842 | the transaction enters the local or remote part, which stay disjoint, and the slot count stays the sum of all slots |
| Lookups.TxLookup.Remove | geth/core/tx_pool.go:1845-1862 | the transaction leaves whichever part holds it, and the slot count follows |
| Lookups.TxLookup.RemoteToLocals | geth/core/tx_pool.go:1866-1879 | exactly the remote transactions of the given accounts move, and the number moved is returned |
| Lookups.TxNoncer.Get | geth/core/tx_noncer.go:46-57 | returns the virtual nonce; caching the state's nonce changes no account |
| Lookups.TxNoncer.Set | geth/core/tx_noncer.go:60-65 | sets one account's virtual nonce and no other |
| Lookups.TxNoncer.SetIfLower | geth/core/tx_noncer.go:69-80 | lowers one account's virtual nonce, never raises it |
| Lookups.TxNoncer.SetAll | geth/core/tx_noncer.go:83-88 | replaces the table |
| Evictions.DroppedTracks | geth/core/tx_pool.go:741-757 | the price heaps go on covering every remote transaction that was not dropped, and only remote ones were |
| Evictions.SlotsSplit | geth/core/tx_pool.go:741-757 | removing transactions from the lookup frees exactly the slots of the distinct ones |
| Evictions.SurplusIff | geth/core/tx_list.go:509-528 | the heaps count exactly the slots of the remote transactions if and only if none that takes up slots has two entries |
| Evictions.Shortfall | geth/core/tx_list.go:566-602 | an eviction falls short of its entries by no more than the surplus, and frees no more than all remote transactions hold |
| Evictions.MetIffNoneTwice | geth/core/tx_list.go:566-602 | every request the heaps cover is met by distinct transactions, whichever entries are dropped, if and only if no remote transaction that takes up slots has two entries |
| Evictions.DropsSame | geth/core/tx_list.go:542-592 | stale entries make no difference to what may be dropped |
| PoolInvariants.TakeKnown | geth/core/tx_pool.go:1040-1086 | removing a transaction from its list, with those above it queued again, and from the lookup keeps lists and lookup in step |
| PoolInvariants.TakenKeepsNonces | geth/core/tx_pool.go:1040-1086 | with the virtual nonce lowered to it, removal keeps the pending nonces an interval |
| PoolInvariants.TakenNextNotQueued | geth/core/tx_pool.go:1040-1086 | removal makes no queued transaction the next of its account, although those above it are queued again |
| PoolInvariants.TakenLessened | geth/core/tx_pool.go:1040-1086 | removal leaves an account its lowest pending nonces and raises no virtual nonce |
| PoolInvariants.CutSettled | geth/core/tx_pool.go:1040-1086 | what is left of an interval below some nonce is an interval |
| PoolMoves.RunIsBlock | geth/core/tx_pool.go:1378-1425 | the promoted run is one block of consecutive nonces that starts at or below the virtual nonce |
| PoolMoves.FilterEligible | geth/core/tx_pool.go:1388-1402 | forwarding and the short-circuiting filter leave of a queued list exactly the transactions neither too old nor too costly |
| PoolMoves.FilterIntact | geth/core/tx_pool.go:1584-1608 | forwarding and the strict filter leave of a pending list exactly what lies below the first unpayable transaction, and invalidate the payable rest |
| PoolMoves.SplitQueue | geth/core/tx_pool.go:1388-1425 | the steps of promotion sort a queued list into the ready run, what stays and what goes |
| PoolMoves.SplitPending | geth/core/tx_pool.go:1583-1628 | the steps of demotion sort a pending list into what stays, what is queued again (with a gapped rest) and what goes |
| PoolMoves.PromotionOk | geth/core/tx_pool.go:1378-1439 | promotion keeps lists and lookup in step |
| PoolMoves.PromotedKeepsNonces | geth/core/tx_pool.go:1378-1439 | promotion keeps the pending nonces of every account an exact interval |
| PoolMoves.PromotedPayable | geth/core/tx_pool.go:1392-1400 | only payable transactions are promoted |
| PoolMoves.PromotedNotReady | geth/core/tx_pool.go:1401-1425 | after promotion the queue does not hold the nonce at which the promoted run ends |
| PoolMoves.PromotedNextNotQueued | geth/core/tx_pool.go:1401-1425 | no promoted account's next nonce is left in the queue, and no other account's comes to be |
| PoolMoves.DemotionOk | geth/core/tx_pool.go:1579-1632 | demotion keeps lists and lookup in step |
| PoolMoves.DemotedPayable | geth/core/tx_pool.go:1590-1600 | what demotion leaves pending is payable |
| PoolMoves.DemotionInterval | geth/core/tx_pool.go:1579-1632 | demotion turns a gap-free account into an interval from its state nonce up to the first missing or unpayable one |
| PoolMoves.Resettles | geth/core/tx_pool.go:1216-1240 | promotion, demotion and the new virtual nonces together act on each account by its own lists and nonce alone |
| PoolMoves.QueuedNextIffOverlooked | geth/core/tx_pool.go:1205-1240 | for one account: after the moves of a run with a reset its next nonce is queued if and only if it was overlooked |
| PoolMoves.ResettledNext | geth/core/tx_pool.go:1205-1240 | for every account of the pool: the next nonce is queued if and only if it was overlooked |
| PoolMoves.SteadyNotOverlooked | geth/core/tx_pool.go:1222-1223 | an account whose pending nonces end at its virtual nonce is never overlooked |
| PoolMoves.OverlookedExample | geth/core/tx_pool.go:1205-1240 | one pending and one queued transaction that follows it: a run with a reset to the same state leaves it queued, one without promotes it |
| PoolMoves.QueuedNextIffLeftBehind | geth/core/tx_pool.go:1205-1240 | for one account, whatever became of its nonce: after the moves its next nonce is queued if and only if it was left behind |
| PoolMoves.ResettledNextQueued | geth/core/tx_pool.go:1205-1240 | the same for every account of the pool |
| PoolMoves.IntervalIffNotGapped | geth/core/tx_pool.go:1205-1240 | for one account, whatever became of its nonce: after the moves its pending nonces are an exact interval if and only if no gap is left |
| PoolMoves.ResettledInterval | geth/core/tx_pool.go:1205-1240 | the same for every account of the pool |
| PoolMoves.GappedExample | geth/core/tx_pool.go:1205-1240 | a fallen nonce with one transaction queued at it leaves a gap below the pending ones |
| PoolMoves.NotFallen | geth/core/tx_pool.go:1205-1240 | if no nonce fell, every account is gap-free and no gap is left |
| PoolMoves.ResetIsPoised | geth/core/tx_pool.go:1333-1355 | whatever a reset puts back, pending nonces still start at the old nonce and no virtual nonce is above the new one |
| PoolMoves.StillNotReady | geth/core/tx_pool.go:1242-1244 | when lists only shrink and the nonces follow, no queued transaction becomes the next |
| PoolTruncation.LowestTwice | geth/core/tx_pool.go:1467-1526 | cutting a list twice is cutting it once at the lower level |
| PoolTruncation.NextLevelTotal | geth/core/tx_pool.go:1467-1526 | one level more is exactly one transaction more for each longer account |
| PoolTruncation.LimitsHold | geth/core/tx_pool.go:1444-1571 | after both truncations each tier is within its limit, or over it only by what may not be dropped |
| PoolTruncation.CutQueue | geth/core/tx_pool.go:1548-1571 | cutting the next account, to nothing or to the limit, keeps one account at most cut in part |
| PoolRules.RivalsAre | geth/core/tx_pool.go:759-783 | the known transactions of a sender and nonce are exactly the one filed there, pending or queued |
| PoolResets.TxDifference | geth/core/types/transaction.go:424-439 | keeps, in order, what is not in the other list |
| PoolResets.DroppedTxs | geth/core/tx_pool.go:1288-1331 | walking both branches back to the highest common block finds exactly the transactions that only dropped blocks hold |
| PoolResets.CollectReinject | geth/core/tx_pool.go:1269-1331 | what a reset puts back: nothing for a child of the old head or a reorganisation deeper than 64 blocks, else exactly the transactions only dropped blocks hold; abandoned exactly if the old head is gone although the new one is not lower |
| PoolResets.RunWithReset | geth/core/tx_pool.go:1191-1361 | a run from the two heads to the pool: abandoned exactly if the old head is gone although the new one is not lower, or the new state is missing; else exactly the transactions only dropped blocks hold are put back, and if all fit each that validates in the new state and clashes with no other is in the pool the moves start from |
| PoolRules.Sanitize | geth/core/tx_pool.go:198-233 | every limit is at least one, and workable settings are kept |
| PoolRules.Validate | geth/core/tx_pool.go:620-693 | a transaction is accepted if and only if it is within gas limit, nonce, balance and fee cap limits, its effective tip reaches the minimum unless it is local, and the other checks pass; why it is refused |
| PoolRules.Missing | geth/core/tx_pool.go:721-738 | nothing is missing exactly if the transaction fits; freeing what is missing makes it fit, and one slot less does not |
| PoolRules.NothingDropped | geth/core/tx_pool.go:990-1003 | if all transactions of a batch fit beside those of the pool, nothing is evicted for any of them |
| PoolRules.BatchPutsIn | geth/core/tx_pool.go:990-1003 | of a batch that fits, every transaction that validates and clashes with no other is known afterwards |
| PoolRules.BatchReturned | geth/core/tx_pool.go:1351-1355 | of a batch that fits, every such transaction is filed, pending or queued, and so is every known one that clashes with no other |
| Pools.TxPool.RemoveTx | geth/core/tx_pool.go:1040-1086 | one transaction leaves every record; pending ones above it are queued again; all invariants stay, and no account's next transaction comes to wait in the queue |
| Pools.TxPool.TruncatePending | geth/core/tx_pool.go:1444-1526 | exact water filling: one level at least the guaranteed slots, every non-local list cut to it and local ones untouched, the limit met or the level at that minimum, and one level higher the limit would not have been met |
| Pools.TxPool.TruncateQueue | geth/core/tx_pool.go:1529-1571 | only non-local accounts lose transactions, each its lowest nonces first and one account before the next, never more than the overflow, and the limit is met unless only local ones are left |
| Pools.TxPool.PromoteAccount | geth/core/tx_pool.go:1378-1439 | drops what is too old or too costly, moves the ready run, caps the rest, ends the virtual nonce after the run, and forgets exactly what left |
| Pools.TxPool.PromoteExecutables | geth/core/tx_pool.go:1378-1439 | exactly the given accounts are promoted, in any order, each by its own lists and nonce; all others are as they were |
| Pools.TxPool.DemoteAccount | geth/core/tx_pool.go:1579-1632 | drops old and unpayable pending transactions, queues what they invalidate and a gapped rest, and forgets exactly what left |
| Pools.TxPool.DemoteUnexecutables | geth/core/tx_pool.go:1579-1632 | every account with pending transactions is demoted, each by its own list |
| Pools.TxPool.SetHighestNonces | geth/core/tx_pool.go:1234-1240 | every virtual nonce is the one past the highest pending transaction, or that of the state |
| Pools.TxPool.MakeRoom | geth/core/tx_pool.go:721-758 | exactly when and why a full pool refuses, and a refusal changes no list; which remote transactions are evicted, no more than asked for and none that ranks above one that is left; exactly the slots of the distinct ones are freed; what is then still missing is at most the surplus of the heaps, unless the new transaction is local and no remote one is left; a request for more than all remote slots is never met |
| Pools.TxPool.EvictFor | geth/core/tx_pool.go:738-757 | evicts the dropped transactions from every record, freeing exactly the slots of the distinct ones, or refuses for lack of remote slots |
| Pools.TxPool.LocalNotRemote | geth/core/tx_pool.go:698-701 | a transaction of a local account is not among those that can be evicted |
| Pools.TxPool.Insert | geth/core/tx_pool.go:759-793 | a validated transaction takes the place of its rival exactly if it outbids it, or goes to the queue |
| Pools.TxPool.InsertAs | geth/core/tx_pool.go:759-793 | says where the new transaction is tracked: local ones apart, remote ones on the price heaps, and an account marked local takes its remote transactions along |
| Pools.TxPool.ReplacePending | geth/core/tx_pool.go:759-783 | replaces the pending transaction of the same nonce exactly if outbid |
| Pools.TxPool.EnqueueNew | geth/core/tx_pool.go:807-842 | queues a transaction, replacing one of the same nonce exactly if outbid |
| Pools.TxPool.MarkLocal | geth/core/tx_pool.go:788-793 | the account becomes local and its remote transactions move over |
| Pools.TxPool.AddTx | geth/core/tx_pool.go:702-801 | the verdict as a function of the pool before; what becomes known and what leaves: the rival and evicted remote transactions, never another one of a local account; which transactions are remote afterwards; the sender becomes local if and only if the transaction was added as local, accepted and not pending; all invariants stay, and an account's next transaction comes to wait in the queue only if this one was queued |
| Pools.TxPool.Admit | geth/core/tx_pool.go:719-801 | the same for a transaction that has been validated: room is made, the rival is replaced if outbid, and the rest is as it was |
| Pools.TxPool.AddTxs | geth/core/tx_pool.go:990-1003 | each transaction gets the verdict of AddTx on the pool that those before it left, one pool after the other; nothing but accepted transactions becomes known; the returned accounts are senders of accepted ones, and no other account has come to have its next transaction waiting in the queue |
| Pools.TxPool.Reset | geth/core/tx_pool.go:1333-1361 | the pool follows the new state; the transactions to put back are added one by one, and if all fit each that validates in the new state and clashes with no other is filed again; pending lists are only cut and no virtual nonce is above the new state's |
| Pools.TxPool.Resettle | geth/core/tx_pool.go:1216-1240 | what every account keeps, pending and queued, after a reset; exact intervals if and only if no gap is left; the next transaction is queued if and only if left behind, which is overlooked if no nonce fell; everything pending is payable; the heaps are ordered by the new base fee |
| Pools.TxPool.RunReorg | geth/core/tx_pool.go:1191-1265 | the exact outcome of a run: after a reset the transactions of dropped blocks are back and the heaps use the new base fee; the moves of each account, then water filling and the queue cut; both tiers within their limits; before the cuts exact intervals if and only if no gap is left, and the next transaction queued if and only if left behind; pending transactions payable after a reset |
| Pools.TxPool.Move | geth/core/tx_pool.go:1205-1240 | the same before the cuts: with a reset every account is promoted and demoted in the new state, without one exactly the given accounts are promoted |
| Pools.TxPool.Truncate | geth/core/tx_pool.go:1242-1244 | both cuts exactly as specified; limits met, intervals kept, no queued transaction becomes the next |
| PoolExamples.EvictDoubled | geth/core/tx_pool.go:721-758 | a full pool of four slots with one transaction listed twice accepts a request for two slots, evicts that one for both and has no room |
| PoolExamples.DoubleEntryExample | geth/core/tx_pool.go:721-758 | the same for a pool that its own operations have filled |
| ReorgLoop.StepKeepsInv | geth/core/tx_pool.go:1121-1188 | every step of the loop, of a run and of a shutdown keeps the invariant |
| ReorgLoop.AtMostOneRun | geth/core/tx_pool.go:1121-1188 | at most one run is active in every reachable state |
| ReorgLoop.ClosedOnlyByCoveringRun | geth/core/tx_pool.go:1090-1188 | before the loop stops, a caller's channel is closed only by a finished run whose input is exactly the requests merged under that channel, the first old head and last new head of its resets and the union of its accounts |
| ReorgLoop.NoRequestLost | geth/core/tx_pool.go:1121-1188 | every merged request is covered by the input of its run, or by the next input with a launch due |
| ReorgLoop.NobodyLeftWaiting | geth/core/tx_pool.go:1178-1185 | once the loop has stopped, every caller's channel is closed |
| ReorgLoop.GrantsAreArrivals | geth/core/tx_pool.go:1090-1188 | channels are granted to exactly the requests that arrived, in their order |
| ReorgLoop.IdleOwesNothing | geth/core/tx_pool.go:1135-1188 | whenever the loop waits with no run in flight, no launch is due and every request that ever arrived has been covered by a run that ended and closed its channel |
| Feeds.Find | geth/event/feed.go:214-221 | returns the first index of a channel, or -1 |
| Feeds.StepKeepsInv | geth/event/feed.go:104-191 | every atomic step keeps the case list tidy and partitioned |
| Feeds.ServedPartition | geth/event/feed.go:229-233 | a delivery moves one channel from the unserved prefix to the served part |
| Feeds.DroppedPartition | geth/event/feed.go:175-181 | removing a channel during a send keeps the partition, whichever part it was in |
| Feeds.LeavingIsFound | geth/event/feed.go:104-126 | a channel being removed is always in the case list and never at slot 0, so its deletion cannot panic |
| Feeds.PrefixIsUndelivered | geth/event/feed.go:129-191 | in every interleaving nothing panics, slot 0 stays, and the prefix is exactly the undelivered part |
| Feeds.SentExactlyOnce | geth/event/feed.go:129-191 | in every interleaving, with subscribers and removals read off the events alone: a channel subscribed when a send began and not removed got the value exactly once, none twice, none else, and the count returned is the number of deliveries |
| Feeds.AlwaysFollows | geth/event/feed.go:66-191 | in every interleaving inbox and case list hold exactly the channels that subscribed since the last send began and before it and were not removed, and each send set out to serve exactly these |
| ChainIndex.AncestorLinked | geth/core/headerchain.go:403-435 | consecutive ancestors are parent and child |
| ChainIndex.DeleteUpward | geth/core/headerchain.go:242-248 | deletes exactly the entries from a number up to the first empty one, and terminates |
| HeaderChains.Store | geth/core/headerchain.go:150-200 | stores exactly the batch, keeps total difficulties additive, and finds the first unknown header, after which none is known |
| HeaderChains.OverwriteBack | geth/core/headerchain.go:251-261 | stopping at the first marker that fits leaves the whole path of the batch's parent |
| HeaderChains.Mark | geth/core/headerchain.go:233-278 | what every marker says after a preferred batch, for known and unknown headers |
| HeaderChains.MarkedIsPath | geth/core/headerchain.go:233-278 | with an unknown header in the batch, the markers are exactly the path of its last header |
| HeaderChains.AllKnown | geth/core/headerchain.go:233-302 | if all headers were known, the markers are exact only if the head stays the same |
| HeaderChains.KnownBatchExample | geth/core/headerchain.go:220-302 | from a genesis: a known header that wins the coin toss against its sibling leaves a wrong index |
| HeaderChains.HeaviestKept | geth/core/headerchain.go:220-231 | the chosen head is heaviest among all known headers |
| HeaderChains.LowestKept | geth/core/headerchain.go:220-231 | the chosen head keeps the lowest number among the heaviest headers |
| HeaderChains.HeaderChain.WriteHeaders | geth/core/headerchain.go:150-302 | the batch is stored, the head is the preferred one, its difficulty never falls and it has the lowest number among the heaviest; the index is exactly its path if and only if the batch is not a known one that is preferred to another head |
| BlockChains.Descend | geth/core/blockchain.go:1925-1938 | walks the longer chain down to the number of the shorter one |
| BlockChains.Meet | geth/core/blockchain.go:1945-1970 | finds the highest common block and both segments above it, at the latest at the genesis |
| BlockChains.Adopt | geth/core/blockchain.go:1986-1997 | makes the new blocks below the head canonical, with index, lookups and head block |
| BlockChains.Reorg | geth/core/blockchain.go:1870-2015 | the new path up to below the new head, nothing above the current block, no lookup of a transaction only dropped blocks hold |
| BlockChains.IndexAfter | geth/core/blockchain.go:741-768 | after the new head's own entry the index is exactly its path if and only if the move was clean |
| BlockChains.DroppedTx | geth/core/blockchain.go:1998-2003 | a dropped block's transaction keeps a lookup entry if and only if an adopted block holds it |
| BlockChains.IndexedAfter | geth/core/blockchain.go:1986-2003 | if the lookups were exactly the transactions of the old path, they are exactly those of the new path |
| BlockChains.BlockChain.ChooseHead | geth/core/blockchain.go:1304-1336 | the fork choice, and after a move the exact index if and only if clean, all three heads on a new block, and exact lookups |
| BlockChains.StoreKeeps | geth/core/blockchain.go:1204-1230 | storing a block with its total difficulty keeps the canonical path, the lookups and the difficulties of all blocks that are there |
| BlockChains.BlockChain.WriteBlock | geth/core/blockchain.go:1199-1336 | a block without a known parent is refused; any other is stored with the sum of its parent's total difficulty and its own, and becomes the head if heavier, or as heavy and lower, or as heavy and high and favoured by the local miner or the coin; the index is exact again if and only if the move was clean, and lookups stay exact |
| BlockChains.BlockChain.constructor | geth/core/blockchain.go:671-699 | a chain of only the genesis has an exact index and exact lookups |
| BlockChains.ShortReorgExample | geth/core/blockchain.go:2004-2012 | one block that replaces two is preferred and leaves an entry above the head |
| Rewinding.Rewind | geth/core/blockchain.go:519-555 | finds the first block with state on the path if the rewind can reach it, else the genesis |
| Rewinding.LandingReaches | geth/core/blockchain.go:519-555 | a rewind that can reach a block with state, past no missing body and not past the pivot, lands there |
| Rewinding.LandingNone | geth/core/blockchain.go:519-555 | a rewind that reaches none lands at the genesis |
| Rewinding.UpdateHeads | geth/core/blockchain.go:512-589 | takes a block head at or above the header to where the rewind from the header lands and leaves any other, and takes a fast head above the header to it, or to the genesis if its body is missing |
| Rewinding.LandsOne | geth/core/blockchain.go:512-589 | one step of the callback for each header passed comes to the same as one rewind from the last, unless a step was stopped, which leaves the genesis |
| Rewinding.LandsMeans | geth/core/blockchain.go:512-555 | so the head block is the highest block with state that the rewind from the target reaches if no step above was stopped, and the genesis if one was or there is none; it is the target exactly if that is the genesis, or has body and state and no step was stopped |
| Rewinding.FastStep | geth/core/blockchain.go:564-579 | the fast head follows the header: it stays if not above it, else it is the header if every block passed has its body, and the genesis otherwise |
| Rewinding.LeftoverAbove | geth/core/headerchain.go:572-577 | the numbers above the head up to the first empty one hold every header above the head |
| Rewinding.RewindTo | geth/core/headerchain.go:531-600 | the rewind reaches the target, having collected everything above it; a block head below the target stays where it was, and any other is where the steps of the callback have led |
| Rewinding.PathBelow | geth/core/headerchain.go:572-600 | deleting everything above the target leaves an exact index exact |
| Rewinding.ChainDb.SetHead | geth/core/headerchain.go:531-608 | terminates at the target with exactly the data above it gone and an exact index still exact; says where both other heads are, the head block exactly; it is the target if and only if that has body and state and nothing above stopped the rewind; the head block can be built on if and only if it could before or was reached by the rewind; no header is left above the target if and only if the head header was above it or there was none |
| Rewinding.StatelessHeadExample | geth/core/blockchain.go:512-516 | a head block without state below the target is still the head afterwards |
| Rewinding.StoppedAboveExample | geth/core/blockchain.go:512-555 | a body missing above the target sends the head block to the genesis, although the target has body and state |
| Rewinding.LeftoverExample | geth/core/headerchain.go:531-537 | a header above the head stays if the target is not below the head |
| Ancestors.WalkOn | geth/core/evm.go:93-109 | walking on from the cache gives what the uncached walk gives and extends the cache correctly |
| Ancestors.WalkFindsAncestor | geth/core/evm.go:79-110 | in a rooted database the plain walk finds the ancestor |
| Ancestors.HashFn.Get | geth/core/evm.go:79-110 | for any query sequence the answer below the reference number is that of the uncached walk |
| Ancestors.StepsReachAncestor | geth/core/headerchain.go:403-435 | k parent steps reach the ancestor k numbers below |
| Ancestors.GetAncestor | geth/core/headerchain.go:403-435 | a non-zero answer is the hash exactly that many parent steps away; for a known block there is one exactly if the block is high enough and the single steps do not run out, for an unknown one exactly if it is the block itself, and for the zero hash exactly if its number is above the head but the ancestor's is not; the budget falls by exactly the single steps taken before the index was met |
| ChainIndexers.ProcessBlocks | geth/core/chain_indexer.go:399-413 | succeeds exactly if each block read is the available child of the one before, and then returns the last hash read, which leads back to the given head, although the chain may change in between |
| ChainIndexers.ProcessSection | geth/core/chain_indexer.go:389-418 | a processed section leads back to the last head by exactly the section's length |
| ChainIndexers.AllCanonical | geth/core/chain_indexer.go:423-431 | if one stored head is canonical, all stored heads from the checkpoint up to it are |
| ChainIndexers.StoreSection | geth/core/chain_indexer.go:349-353 | storing a section on the head it builds on keeps the heads linked, whatever was stored above |
| ChainIndexers.PathIsLinked | geth/core/chain_indexer.go:423-431 | an index that is exactly the path of a head is linked |
| ChainIndexers.ChainIndexer.SetValidSections | geth/core/chain_indexer.go:480-492 | exactly the heads below the new count stay |
| ChainIndexers.ChainIndexer.AddCheckpoint | geth/core/chain_indexer.go:131-144 | a checkpoint above all stored sections replaces the count; lower ones change nothing |
| ChainIndexers.ChainIndexer.Reorged | geth/core/chain_indexer.go:244-275 | sections above the reorganised block are dropped, but not those of the checkpoint |
| ChainIndexers.ChainIndexer.NewHead | geth/core/chain_indexer.go:276-301 | the known sections grow to the confirmed ones, past the checkpoint only if it matches the chain |
| ChainIndexers.ChainIndexer.VerifyLastHead | geth/core/chain_indexer.go:423-431 | every section beyond the checkpoint is kept if and only if its head is canonical, although only the newest is compared |
| ChainIndexers.ChainIndexer.Begin | geth/core/chain_indexer.go:334-342 | the next section and the head it builds on, taken before the lock is released |
| ChainIndexers.ChainIndexer.ResetFailed | geth/core/chain_indexer.go:393-396 | a backend that refuses to start drops all sections |
| ChainIndexers.ChainIndexer.Commit | geth/core/chain_indexer.go:346-370 | after the unlocked window the section is stored exactly if its base head is still there; the heads stay linked in any case |
| ChainIndexers.ChainIndexer.Happen | geth/core/chain_indexer.go:244-301 | whatever others do, in any order, keeps the heads linked |
| ChainIndexers.ChainIndexer.Round | geth/core/chain_indexer.go:318-384 | a round works on the section after those stored ones that are on the canonical chain, and on the head stored for the last of these; it stores the section exactly if every block was read as the child of the one before, the backend reset and committed, and that head is still there after anything others did; with no interference the heads before it stay; a failed round leaves only canonical sections beyond the checkpoint |
| ChainIndexers.SmoothWorked | geth/core/chain_indexer.go:389-418 | on a complete chain an undisturbed round that builds on a canonical head processes its section |
| ChainIndexers.ChainIndexer.RoundOn | geth/core/chain_indexer.go:318-384 | an undisturbed round stores one more section, all heads beyond the checkpoint being on the chain |
| ChainIndexers.ChainIndexer.Rounds | geth/core/chain_indexer.go:305-385 | any number of rounds, with steps of others between and during them, keeps the heads linked; undisturbed rounds store all known sections, as many rounds as sections being enough |
| StateTransitions.GasPool.AddGas | geth/core/gaspool.go:30-36 | panics exactly if the sum exceeds 64 bits |
| StateTransitions.GasPool.SubGas | geth/core/gaspool.go:40-46 | subtracts exactly if there is enough |
| StateTransitions.IntrinsicGas | geth/core/state_transition.go:124-162 | fails exactly if the gas for the data exceeds 64 bits; otherwise the exact sum, wrapped around only by an access list |
| StateTransitions.OneByteMore | geth/core/state_transition.go:131-155 | one more byte of data costs 4 if it is zero, else 68, or 16 since Istanbul |
| StateTransitions.PreCheck | geth/core/state_transition.go:243-289 | a message passes if and only if its nonce is right and not the last, its sender has no code, since London its fee cap is below 2^256 and covers tip and base fee, and its meta data is sound with a share of at most 10000; which errors mean which |
| StateTransitions.OrdinaryNeverShort | geth/core/state_transition.go:198-218 | an ordinary message that can buy its gas can also transfer its value |
| StateTransitions.Refund | geth/core/state_transition.go:424-430 | the refund is the counter, capped by the quotient of the gas used (Specification section of EIP-3529) |
| StateTransitions.SharesAddUp | geth/core/state_transition.go:220-238 | the two shares of an amount lose at most one unit to rounding |
| StateTransitions.RefundWithinPrepaid | geth/core/state_transition.go:424-441 | of a completed message: nobody but the fee collector is given back more than they prepaid, neither payer of a meta transaction included |
| StateTransitions.ChargeMeans | geth/core/state_transition.go:220-238 | in numbers: the fee payer is charged gas times price times its share in ten thousandths, the sender the rest, each rounded down, an ordinary sender the whole; giving back is the reverse |
| StateTransitions.PayersPay | geth/core/state_transition.go:198-448 | the same of a completed message, for the gas bought and for the gas given back |
| StateTransitions.RefundCapped | geth/core/state_transition.go:424-430 | the refund of a completed message is at most a fifth of the gas consumed since London, and half of it before |
| StateTransitions.NoOverdraft | geth/core/state_transition.go:198-238 | buying gas overdraws nobody, except a sender who is its own fee payer, exactly if the balance does not cover both shares |
| StateTransitions.OverdraftExample | geth/core/state_transition.go:220-238 | a sender who names itself as the payer of one half can pay each half but not both |
| StateTransitions.WholePrice | geth/core/state_transition.go:400-415 | the effective price of EIP-1559 is base fee plus tip, so the recorder is paid the whole price |
| StateTransitions.FeesConserved | geth/core/state_transition.go:198-448 | with a conserving EVM a message leaves the supply as it was, a meta transaction within one unit |
| StateTransitions.BaseFeeBurnt | geth/core/state_transition.go:400-417 | without Congress the supply falls by exactly the base fee of the gas used |
| StateTransitions.SenderPaysRecorder | geth/core/state_transition.go:198-415 | the sender's net debit for gas is exactly what the fee recorder gains |
| StateTransitions.StateTransition.BuyGas | geth/core/state_transition.go:198-238 | charges each payer what it owes, in numbers, and the pool, or changes nothing and says which was short |
| StateTransitions.StateTransition.RefundGas | geth/core/state_transition.go:424-448 | returns the unused and refunded gas to each payer by its share, in numbers, and to the pool, which cannot overflow |
| StateTransitions.StateTransition.PayFees | geth/core/state_transition.go:400-417 | credits the recorder under Congress, else the miner, with the tip, and under Congress after London the base fee too, and nobody else |
| StateTransitions.StateTransition.TransitionDb | geth/core/state_transition.go:333-422 | when a message is refused and why; of a completed one, what was charged, refunded and paid, and that the pool lost exactly the gas used |
| StateProcessors.ApplyTransaction | geth/core/state_processor.go:154-183 | refuses exactly the refused messages; the gas used goes from the pool to the receipt, and the fees are conserved |
| StateProcessors.Process | geth/core/state_processor.go:74-151 | each transaction runs on the balances and gas those before it left; the block is refused exactly at the first one that is not accepted or whose message is refused there; at each receipt the pool plus the running total is the gas limit, the totals are running sums within the limit, and the supply changes by at most one unit for each meta transaction |
| HdPaths.ScanDigits | geth/accounts/hd.go:101-105 | scans digits with separators exactly when they are well formed, to their value |
| HdPaths.DigitMeans | geth/accounts/hd.go:101-105 | the digits are the ten of the decimal system, then the letters in either case |
| HdPaths.SignMeans | geth/accounts/hd.go:101-105 | a minus in front of an unsigned literal negates it, a plus changes nothing, a second sign is refused |
| HdPaths.BaseMeans | geth/accounts/hd.go:101-105 | the prefix gives the base: sixteen, eight, two or ten, in either case of the letter |
| HdPaths.ParseDerivationPath | geth/accounts/hd.go:69-119 | parses a text exactly to its meaning, absolute or below the default root, or refuses it |
| HdPaths.RelativeMeans | geth/accounts/hd.go:75-95 | a text that starts with neither an empty part nor "m" parses as its absolute form below m/44'/60'/0'/0 |
| HdPaths.String | geth/accounts/hd.go:123-137 | prints a path in its canonical form |
| HdPaths.DecimalParses | geth/accounts/hd.go:101-105 | a number printed in decimal is read back as that number |
| HdPaths.ComponentParses | geth/accounts/hd.go:92-119 | a printed component, with a quote from 2^31 on, is read back as that component |
| HdPaths.PrintThenParse | geth/accounts/hd.go:69-137 | parsing a printed non-empty path gives the path back |
| HdPaths.ParseThenPrint | geth/accounts/hd.go:69-137 | the printed form of any parsed text parses to the same path |
| HdPaths.EmptyPathRefused | geth/accounts/hd.go:88-91 | the empty path prints as a text that is refused |

## Left out

- Pools.TxPool.Reset: the fork flags and the fake header of the extra validator are not modelled; the new state and gas limit are parameters, and an early return is a missing head.
- PoolResets.RunWithReset: the pool knows transactions by their fields and the chain by their hashes; a map that gives each transaction in a block its fields is passed in.
- Pools.TxPool.RunReorg: the events sent afterwards are not modelled.
- PoolRules.Validate: transaction type, size, sign of the value, sender recovery, intrinsic gas and the deny list are verdicts passed in.
- PricedLists.PricedList.Removed: the count of stale entries is a heuristic and is not claimed to be exact.
- Pools.TxPool.PromoteAccount: the pool's lists are values of the functions that the class TxList refines, so sharing of list objects and their update in place are not captured at this level; a run is added to the pending list as one step.
- ReorgLoop.StepKeepsInv: the queued transaction events handed to a run are not modelled.
- HeaderChains.HeaderChain.WriteHeaders: an interrupt between filling the caches and writing the batch is not modelled; caches are taken to agree with the database.
- BlockChains.BlockChain.ChooseHead: receipts and state of the block, and the logs and events of a reorganisation are not modelled.
- Rewinding.ChainDb.SetHead: ancient data, the repair mode and the threshold state root are not modelled, and the heads are not read back afterwards; they are shown to be stored, so reading them back finds them.
- ChainIndexers.ChainIndexer.ResetFailed: the source drops the sections without holding the lock; the model takes this as one step.
- ChainIndexers.ChainIndexer.AddCheckpoint: the checkpoint head is taken not to be the zero hash; child indexers, throttling and the loading of the count from disk are not modelled.
- Feeds.SentExactlyOnce: element types and their checks are not modelled; a channel is subscribed again only after its removal is complete.
- StateTransitions.StateTransition.TransitionDb: the EVM is a parameter that returns no more gas than it was given; signatures, access lists of the state, the nonce update, fake messages and calls without a base fee are not modelled.
- StateProcessors.Process: system transactions are skipped as in the loop, but their execution and the rest of block finalisation are not modelled; what the engine and the state say about a transaction is passed in.
- HdPaths.ParseDerivationPath: texts are sequences of characters, so malformed UTF-8 is not modelled; the iterators over paths and the JSON form are left out as easy.
- The journal, metrics, logs, timers, heartbeats (an arbitrary order here), the price limit change, the status queries and the jam index of the pool: input and output, or easy.
- The freezer, tries, snapshots, receipts, consensus engines, networking, RPC and wallets.

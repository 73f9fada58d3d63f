# Verified core of a UTXO-chain node

A Dafny model of the stateful algorithms at the core of the node in `src/`, with proofs
of what they keep, compute and promise.

| file | models | in short |
|---|---|---|
| `Coins.dfy` | stacks of coin caches | a stack of any depth is one plain map, over every run |
| `AddrManState.dfy`, `AddrManRuns.dfy`, `AddrManHash.dfy`, `AddrMan.dfy` | the address manager | every run keeps the invariant that `Check_` tests, so its asserts cannot fire; when an address is learned, refreshed, moved or told |
| `AddrManLoad.dfy`, `AddrManStore.dfy` | its save format | loading what was saved gives the same manager, with ids renumbered; for every other stream, when the result is consistent |
| `Miner.dfy` | block assembly over the memory pool's graph | a valid, ordered, bounded template, tried in feerate order, and why nothing more was added |
| `CheckQueue.dfy` | the parallel check queue | right results and no lost wake-up, for every interleaving |
| `CompactBlocks.dfy` | compact block relay (BIP 152) | exact reconstruction |
| `MerkleBlock.dfy` | partial Merkle trees (BIP 37) | round trip, and soundness of accepted proofs |
| `ArithUint.dfy`, `Pow.dfy` | 256-bit arithmetic, compact targets, retargeting | exact integer meaning of the limb loops; how the target follows the elapsed time |
| `Chain.dfy`, `BlockDownload.dfy` | block index, active chain, block download | fast walks equal plain ones, in few steps; what is asked for and why the search ends |
| `InFlight.dfy` | blocks in flight | maps, queues and counters agree over every run |
| `RollingBloom.dfy` | the rolling Bloom filter | exactly which keys it stands for |
| `Bech32.dfy`, `Bech32Errors.dfy`, `Bech32Known.dfy` | Bech32 strings (BIP 173) | round trips both ways; up to three errors in a window of 1023 symbols are always detected, also in the prefix |
| `Base58.dfy` | Base58 strings | round trips both ways, buffer sizes |
| `NetFraming.dfy` | message framing and sending | independent of how the stream is cut; sent bytes are a prefix; what is pushed arrives |
| `Basics.dfy` | what several of these use | |

Objects that the source updates in place are classes here, and their methods are proved
against functions on values; recursive and pure code is functions. Hashes are arbitrary
functions, injective only where a contract says so. Random draws, clocks, the bucket test
of the standard hash table and the answers of the
socket are parameters, and everything is proved for all of them. Integers are unbounded
where the source's ranges cannot be left; where truncation matters it is written out
(32-bit limbs and carries, 16-bit positions, the 32-bit factor in retargeting).

Places where the code does not do what one might read off its comments or names, all of
them modelled as the code is:

- `SpendCoin` returns true also for a coin the cache already holds as spent.
- `AddCoin` reduces the usage before it may throw, so a throw leaves the usage short.
- A caller that denies an overwrite of a coin held below gets a FRESH entry that is not
  honest: spending it brings the old coin back (`CoinEntries.DeniedOverwriteResurrects`).
- `CAddrMan::Clear` leaves `mapInfo` and `mapAddr` as they are (`AddrManStore.ClearKeeps`).
- The package totals of the assembler use the base fee in one place and the modified fee in
  another (`MinerPackages.PrioritisedFeesDrift`), and a package that comes back after it
  failed counts some ancestors twice (`MinerPackages.ReturningIsOverestimated`).
- `base_uint::operator*=` clears its object before it reads the operand, so `x *= x` gives
  zero (`BaseUint.SelfProduct` says when that is right).
- The bound of 2N-1 flag bits in `src/merkleblock.h` does not hold for every tree
  (`MerkleTree.FlagBits` says for which it does), and neither does the bound on the size
  that is derived from it (`PartialMerkleTree.SizeBound`).
- `CAddrMan::Unserialize` accepts negative counters and repeated addresses
  (`AddrManLoad.LoadConsistent`).
- Retargeting multiplies in 256 bits: where the product does not fit, slower blocks can lower
  the target (`ProofOfWork.RetargetWraps`).
- The reader of a request for transactions keeps its offset in 16 bits, so positions can
  start over (`CompactBlocks.ReadIsCanonical`).
- `InitData` keeps slots and their offset in 16 bits. Its slots are right if and only if
  there are at most 65536 transactions (`CompactBlocks.MapShortIds`), and with 65536
  prefilled transactions and a short id it does not return (`CompactBlocks.OffsetLoopsEnd`).

## Model

| member | source | states |
|---|---|---|
| CoinEntries.AddKeeps | src/coins.cpp:67-86 | After an allowed AddCoin the view shows exactly the new coin on top of the old view; the DIRTY/FRESH flags stay honest about the level below if and only if the overwrite was admitted, the entry was cached, or the level below has no such coin |
| CoinEntries.DeniedOverwriteResurrects | src/coins.cpp:67-86 | The failing family of the previous row: a denied overwrite of a coin held only below makes that old coin visible again once the new one is spent |
| CoinEntries.SpendKeeps | src/coins.cpp:99-113 | Spending a cached entry removes exactly that coin from the view, keeps the flags honest and the memory usage exact |
| CoinEntries.MergeKeeps | src/coins.cpp:146-202 | Merging an honest child entry never takes the "FRESH flag misapplied" exit, keeps the flags honest about the view two levels down, and makes the layer show what the child showed |
| CoinEntries.CachingKeeps | src/coins.cpp:41-56 | Pulling a coin into a cache changes no view and accounts for its memory |
| CoinEntries.UncachingKeeps | src/coins.cpp:211-218 | Dropping an unmodified entry changes no view and no flag promise |
| CoinEntries.UsageAfterWrite | src/coins.cpp:67-86 | cachedCoinsUsage is the sum over the entries before and after a write at any key |
| CoinEntries.DirtyPartSuffices | src/txdb.cpp:85-144 | Writing only the DIRTY entries of an honest cache shows the same coins as writing all of them |
| CoinsCache.CoinsViewDB.BatchWrite | src/txdb.cpp:85-144 | The store becomes the old store overlaid with the DIRTY entries, spent ones erased, and keeps only unspent coins |
| CoinsCache.CoinsViewCache.constructor | src/coins.cpp:35 | A new layer over a database or over another cache is consistent and shows what lies below it |
| CoinsCache.CoinsViewCache.OnlyTopRewritten | src/coins.h:104-121 | Rewriting one layer changes what that level shows and nothing below it; the stack stays valid exactly when the flags are honest and the usage is exact |
| CoinsCache.CoinsViewCache.FetchCoin | src/coins.cpp:41-56 | A lookup caches the coin at every level it passes through and changes what no level shows |
| CoinsCache.CoinsViewCache.GetCoin | src/coins.cpp:58-65 | The answer is that of the plain map the stack stands for |
| CoinsCache.CoinsViewCache.HaveCoin | src/coins.cpp:126-129 | True exactly if the plain map has the coin |
| CoinsCache.CoinsViewCache.GetBestBlock | src/coins.cpp:136-140 | The topmost recorded hash, which every level above it then records too |
| CoinsCache.CoinsViewCache.SetBestBlock | src/coins.cpp:142-144 | Changes the hash of this level only |
| CoinsCache.CoinsViewCache.AddCoin | src/coins.cpp:67-86 | Throws exactly on a denied overwrite of a cached unspent coin; states exactly when the stack stays valid, and that it then shows the old view with the coin |
| CoinsCache.CoinsViewCache.SpendCoin | src/coins.cpp:99-113 | The coin disappears from the view and is handed out; the result is true also for a coin this cache already holds as spent |
| CoinsCache.CoinsViewCache.Uncache | src/coins.cpp:211-218 | Removes only an unmodified entry; no level shows a difference |
| CoinsCache.CoinsViewCache.BatchWrite | src/coins.cpp:146-202 | Succeeds exactly if every entry merges; for an honest batch it always does, and the level then shows the batch over its old view |
| CoinsCache.CoinsViewCache.MergeOne | src/coins.cpp:148-199 | One turn of the merge loop: the three ways an entry is inserted, erased or updated, with exact memory usage |
| CoinsCache.CoinsViewCache.Flush | src/coins.cpp:204-209 | Never throws; the level below shows what this one showed, this cache is empty with zero usage |
| CoinsCache.FlushKeepsBestBlock | src/coins.cpp:204-209 | Flushing keeps the best block that is seen if and only if this level recorded one or the level below recorded nothing of its own |
| CoinsCache.AddCoins | src/coins.cpp:88-97 | Adds every output of a transaction, with or without asking the cache first, and no exception is raised |
| CoinsCache.LaterOutputsUntouched | src/coins.cpp:88-97 | Adding the first outputs of a transaction leaves every other outpoint as it was |
| CoinsCache.OnlySpendableSeen | src/coins.cpp:67-70 | An output is entered unless its script begins with 0x6a or is longer than 10000 bytes |
| CoinsCache.Do | src/coins.cpp:41-218 | One operation on a real stack of any depth answers and leaves at every level what the same operation does on plain maps |
| CoinsCache.Run | src/coins.cpp:41-218 | The same for every legal run, including pushing, discarding and flushing caches |
| CoinsCache.LocalRun | src/coins.h:104-121 | Operations on the top level depend only on the coins it shows and leave the lower levels alone |
| CoinsCache.CommitLaw | src/coins.cpp:204-209 | Working in a fresh cache and flushing it equals working one level down |
| CoinsCache.RollbackLaw | src/coins.cpp:204-209 | Dropping a fresh cache undoes whatever was done in it |
| AddrManState.SwapRandomKeeps | src/addrman.cpp:93-111 | Swapping two entries of vRandom keeps the whole invariant |
| AddrManState.DeleteKeeps | src/addrman.cpp:113-125 | Deleting an unreferenced entry keeps it |
| AddrManState.ClearNewKeeps | src/addrman.cpp:127-140 | Clearing a new slot keeps it and frees the slot |
| AddrManState.EvictKeeps | src/addrman.cpp:160-182 | Moving the old occupant of a tried slot back to the new table keeps it, also in the middle of MakeTried |
| AddrManState.MakeTriedKeeps | src/addrman.cpp:142-188 | MakeTried keeps it, with all asserts inside |
| AddrManState.CreateKeeps | src/addrman.cpp:81-91 | Creating an entry for an unknown address gives a state that is consistent but for the missing reference |
| AddrManState.PlaceKeeps | src/addrman.cpp:293-312 | Placing an entry into its new bucket, or giving it up, restores the invariant |
| AddrManState.GoodKeeps | src/addrman.cpp:190-240 | Good_ keeps the invariant |
| AddrManState.AddKeeps | src/addrman.cpp:242-313 | Add_ keeps the invariant on every branch |
| AddrManState.MinorKeeps | src/addrman.cpp:315-336 | Attempt_, Connected_ and SetServices_ keep the invariant |
| AddrManState.GetAddrKeeps | src/addrman.cpp:463-482 | GetAddr_ only permutes vRandom, keeps its quota, and tells only known addresses that are not terrible |
| AddrManRuns.ListedSomewhere | src/addrman.cpp:386-460 | Between operations every id is in exactly one of the two tables, and its reference count tells which |
| AddrManRuns.ClearNewLoses | src/addrman.cpp:127-140 | An entry leaves the manager only with its last new slot |
| AddrManRuns.AddLosesOnlyTerrible | src/addrman.cpp:293-312 | Add_ drops an entry only if that was its last slot and the entry was terrible |
| AddrManRuns.AddLearns | src/addrman.cpp:242-313 | An unknown routable address is learned, at the slot it hashes to, with one reference, the penalised time, its services and exact counters, if and only if that slot was free or held by an entry that is terrible or has other slots; otherwise nothing changes but the next id and the order of vRandom |
| AddrManRuns.AddRefreshes | src/addrman.cpp:256-312 | For a known address: its new time and services, and that it gets exactly one more slot if and only if the message is newer, it may have one more, the draw allows it and the slot is free or held by a terrible entry; what happens to that entry |
| AddrManRuns.ClearNewVacates | src/addrman.cpp:127-140 | Clearing a slot takes one reference from the entry there, which goes with its last one, and touches no other entry |
| AddrManRuns.EvictFrame | src/addrman.cpp:160-182 | What eviction changes of every other entry, and what it cannot change |
| AddrManRuns.MakeTriedFrame | src/addrman.cpp:142-188 | The entry ends in the tried slot it hashes to; at most one other entry leaves the tried table |
| AddrManRuns.MakeTriedTables | src/addrman.cpp:142-188 | Both tables afterwards: the entry has left all its new slots, and the one it displaced is at the new slot that its own source gives |
| AddrManRuns.GoodMoves | src/addrman.cpp:190-240 | A known service that was reached is afterwards in the tried table with its success recorded and no failures, and both tables are exactly as said |
| AddrManRuns.UnknownIgnored | src/addrman.cpp:190-520 | A service not known under just that port changes nothing; Good_ notes the time |
| AddrManRuns.FailureCountsOnce | src/addrman.cpp:315-336 | Of two failed attempts the second counts if and only if the first was dated before the last success of anybody; nothing else changes |
| AddrManRuns.UncountedAttempt | src/addrman.cpp:315-336 | An attempt that is not to count only dates the last try |
| AddrManRuns.ConnectedSteps | src/addrman.cpp:484-502 | Connected_ moves the time of the entry only by more than twenty minutes at once |
| AddrManRuns.ServicesSet | src/addrman.cpp:504-520 | The last SetServices_ decides the services of that entry, and changes nothing else |
| AddrManRuns.WorthKeeping | src/addrman.cpp:33-52 | An entry not tried within the last minute is not terrible if and only if it is dated within the last thirty days or ten minutes ahead and has failed less than three times, if never reached, or ten times, if not reached for a week |
| AddrManRuns.ThirdFailure | src/addrman.cpp:33-52 | The third failure on an entry never reached makes it terrible a minute later and not before |
| AddrManRuns.GetAddrTells | src/addrman.cpp:463-482 | Exactly as many addresses as are not terrible, or else 23 in 100 of all, or else 2500 |
| AddrManRuns.GoodTimes | src/addrman.cpp:190-240 | Good_ keeps the time conditions of Check_ if and only if its time is positive or nobody knows the service |
| AddrManRuns.AttemptTimes | src/addrman.cpp:315-336 | Attempt_ keeps them if and only if its time is not negative or nobody knows the service |
| AddrManRuns.AddTimes | src/addrman.cpp:242-313 | Add_ always keeps them |
| AddrManRuns.Steps | src/addrman.cpp:81-313 | Every run of operations from a consistent manager ends in a consistent one |
| AddrManRuns.StepsTimes | src/addrman.cpp:386-460 | Every run with sane times keeps the time conditions |
| AddrManRuns.InvPassesCheck | src/addrman.cpp:386-460 | The invariant and the time conditions imply that Check_ returns 0 exactly if the key is not null |
| AddrManRuns.CheckIsExact | src/addrman.cpp:386-460 | And Check_ misses nothing: for a manager whose ids are in range, whose address map points at entries with that address, and whose table lies within its buckets, which it does not test, it returns 0 if and only if the invariant and the time conditions hold and the key is not null |
| AddrManRuns.RunPassesCheck | src/addrman.cpp:386-460 | After every run from construction with sane times, Check_ finds nothing, or a null key if it was given one |
| AddrManRuns.EmptyInv | src/addrman.h:451-470 | A newly constructed manager is consistent |
| AddrManHash.HashEnvOk | src/addrman.cpp:12-31 | Whatever the hash, buckets and positions lie inside the tables |
| AddrManHash.GroupReachesFewTriedBuckets | src/addrman.cpp:12-17 | All addresses of one group reach at most 8 tried buckets |
| AddrManHash.SourceReachesFewNewBuckets | src/addrman.cpp:19-25 | All addresses learned from one source group reach at most 64 new buckets |
| AddrMan.CAddrMan.constructor | src/addrman.h:451-470 | The tables, maps and counters of an empty manager |
| AddrMan.CAddrMan.SwapRandom_ | src/addrman.cpp:93-111 | The in-place swap is the swap of the model |
| AddrMan.CAddrMan.Delete_ | src/addrman.cpp:113-125 | The in-place deletion is that of the model; its asserts hold |
| AddrMan.CAddrMan.ClearNew_ | src/addrman.cpp:127-140 | The in-place version keeps the invariant and leaves the slot free; its assert holds |
| AddrMan.CAddrMan.MakeTried_ | src/addrman.cpp:142-188 | The loop over all new buckets and the eviction amount to the step of the model; its asserts hold |
| AddrMan.CAddrMan.Evict_ | src/addrman.cpp:160-182 | The occupant of a tried slot goes back to the new slot it hashes to |
| AddrMan.CAddrMan.Good_ | src/addrman.cpp:190-240 | Keeps the invariant; the search for a new bucket always succeeds, so the "not found" exit is never taken |
| AddrMan.CAddrMan.Add_ | src/addrman.cpp:242-313 | Keeps the invariant and has the effect of the model on every branch: what is not routable is ignored, an unknown address is learned and a known one refreshed as the two laws say |
| AddrMan.CAddrMan.Attempt_ | src/addrman.cpp:315-336 | Keeps the invariant and has the effect of the model |
| AddrMan.CAddrMan.Connected_ | src/addrman.cpp:484-502 | Keeps the invariant and has the effect of the model |
| AddrMan.CAddrMan.SetServices_ | src/addrman.cpp:504-520 | Keeps the invariant and has the effect of the model |
| AddrMan.CAddrMan.GetAddr_ | src/addrman.cpp:463-482 | Distinct known good addresses, exactly as many as the quota and the entries allow, and nothing changes but the order of vRandom |
| AddrMan.StochasticFactor | src/addrman.cpp:279-283 | The loop computes two to the number of references |
| AddrManLoad.LoadRead | src/addrman.h:374-431 | From any stream with counters that are not negative, what is read has dense ids, vRandom and both tables in order, exact reference counts within their limit, and counters that match |
| AddrManLoad.EnterNewRead | src/addrman.h:375-391 | One new entry keeps this, whether or not the stored table can be used |
| AddrManLoad.EnterTriedRead | src/addrman.h:397-412 | So does one tried entry, kept or lost |
| AddrManLoad.IndexedRead | src/addrman.h:421-429 | So does one stored position, taken or skipped |
| AddrManLoad.PrunedConsistent | src/addrman.h:433-448 | After the unreferenced entries are dropped the whole invariant holds if and only if no entry that stays shares its address with another that was read |
| AddrManLoad.LoadConsistent | src/addrman.h:345-449 | For any stream that is accepted, what is loaded is consistent if and only if both counters are not negative and addresses do not meet in this way |
| AddrManLoad.LoadApart | src/addrman.h:374-413 | They do not if the addresses in the stream are all different |
| AddrManLoad.RepeatedAddress | src/addrman.h:374-413 | A stream that is accepted and has one entry twice loads into a manager that is not consistent |
| AddrManStore.WriteNew | src/addrman.h:309-319 | Writes the new entries in order and numbers them; its assert cannot fail |
| AddrManStore.WriteTried | src/addrman.h:320-328 | Writes the tried entries in order; its assert cannot fail |
| AddrManStore.WriteBuckets | src/addrman.h:329-342 | Writes for every bucket the numbers of its entries |
| AddrManStore.Serialize | src/addrman.h:295-343 | The bytes written are the format of the model |
| AddrManStore.SavedLayout | src/addrman.h:266-275 | The header literally, then new and tried entries by ascending id, and one number for each bucket and each slot taken |
| AddrManStore.CountersFit | src/addrman.h:366-372 | In every consistent manager the counters pass the limits that loading imposes |
| AddrManStore.ClearKeeps | src/addrman.h:451-470 | Clear leaves a consistent manager if and only if mapInfo and mapAddr were empty already |
| AddrManStore.Clear | src/addrman.h:451-470 | Empties the tables and counters and leaves the two maps as they are |
| AddrManStore.ReadNew | src/addrman.h:374-392 | For any input the loop has the effect of the section in the model, and fails exactly where it does; what is read is loadable |
| AddrManStore.ReadTried | src/addrman.h:394-413 | The same for tried entries, with those whose slot is taken lost and taken off the counter |
| AddrManStore.ReadBuckets | src/addrman.h:415-431 | The same for the new table |
| AddrManStore.Prune | src/addrman.h:433-443 | Drops exactly the entries without a reference, with their addresses and counts; the others keep all but their place in vRandom |
| AddrManStore.Unserialize | src/addrman.h:345-449 | For any stream: fails exactly where the model does, and otherwise leaves what was read without its unreferenced entries; that is consistent if and only if the counters are not negative and no entry that stays shares its address with another; in particular if all addresses differ. A saved manager is given back with ids renumbered in the order written |
| AddrManStore.LoadSaved | src/addrman.h:345-449 | Reading a saved manager gives it with ids renumbered, with nothing lost |
| AddrManStore.RenumberSame | src/addrman.h:345-449 | Renumbering keeps every address in the same new and tried slots with the same reference count and stored fields |
| AddrManStore.RenumberKeeps | src/addrman.h:345-449 | The renumbered manager satisfies the whole invariant |
| AddrManStore.SaveAndLoad | src/addrman.h:295-449 | Save, then load into a fresh manager: the same manager, consistent; Check_ passes if the times were sane, unless the key is null |
| MinerPool.CalculateAncestors | src/txmempool.cpp:153-215 | The worklist finds exactly the transitive closure of the parents |
| MinerPool.CalculateDescendants | src/txmempool.cpp:451-472 | The worklist finds exactly the entry and everything that has it as an ancestor |
| MinerPool.AncestorTransitive | src/txmempool.cpp:153-215 | An ancestor of an ancestor is an ancestor |
| MinerPool.AncestorCountsLess | src/miner.h:77-87 | An ancestor has a smaller ancestor count, so the comparator orders by dependency |
| MinerPool.SizeCoversWeight | src/miner.cpp:200-208 | Four times the virtual size of a package bounds its weight |
| MinerPackages.PrioritisedFeesDrift | src/miner.h:109-121 | With two included ancestors the fee total is exact if and only if base and modified fee of the later one agree |
| MinerPackages.UpdateForOne | src/miner.cpp:250-268 | Every descendant outside the added set accounts once for one included entry, and nothing else changes |
| MinerPackages.UpdatePackagesForAdded | src/miner.cpp:244-271 | For every pool, each descendant accounts for exactly its included ancestors: sizes and sigops, and in fees the base fees, but for the first one of a new entry, whose modified fee is taken |
| MinerPackages.RestShrinks | src/miner.cpp:244-271 | What a package still needs shrinks by exactly its ancestors that were included |
| MinerPackages.CachedTracked | src/miner.cpp:257-262 | The cached totals are those of what a package still needs and of all its ancestors in the block |
| MinerPackages.FailingTracks | src/miner.cpp:381-397 | Erasing a failed entry keeps all totals tracked, with its ancestors in the block as its excess |
| MinerPackages.InclusionTracks | src/miner.cpp:417-433 | Including a package and updating its descendants keeps every total exactly what the package still needs plus the excess |
| MinerPackages.ReturningIsOverestimated | src/miner.cpp:381-433 | A package that was erased and comes back counts the ancestors that were in the block when it was erased once more; there always are some, so its size is always too big |
| Miner.SortForBlock | src/miner.cpp:286-295 | A permutation of the package sorted by ancestor count |
| Miner.SortedIsOrdered | src/miner.cpp:286-295 | So sorted, every entry comes after all its ancestors |
| Miner.RankTransitive | src/txmempool.h:277-315 | The comparator by the lower of two feerates, ties by hash, is transitive where it says no, so the order is one |
| Miner.RateIsLower | src/txmempool.h:297-314 | The rate an entry is ranked by is its own feerate or that of its package, and neither is below it |
| Miner.OutranksMeans | src/txmempool.h:277-296 | In fees and sizes alone: one entry comes before another if and only if a rate of the other is below both of its own, or there is no such difference and its hash is lower |
| Miner.BestModified | src/miner.cpp:340-356 | The first entry of mapModifiedTx is one that none of them outranks |
| Miner.InclusionSettles | src/miner.cpp:417-433 | Including a package cannot make one fit that did not fit and whose ancestors it does not contain |
| Miner.PackageFits | src/miner.cpp:200-208 | A package that passes TestPackage by its totals really keeps the limits |
| Miner.BlockAssembler.constructor | src/miner.cpp:62-67 | The weight limit is clamped between 4000 and the maximum less 4000 |
| Miner.BlockAssembler.ResetBlock | src/miner.cpp:89-101 | An empty template with room for the coinbase |
| Miner.BlockAssembler.AddToBlock | src/miner.cpp:225-242 | Appends one entry and keeps order, uniqueness and all running totals exact |
| Miner.BlockAssembler.IncludePackage | src/miner.cpp:400-433 | Adds exactly the missing part of the package, or refuses because something in it may not be mined |
| Miner.BlockAssembler.EvaluatePackage | src/miner.cpp:381-433 | One turn: tested with the tracked totals, and either included or left out because it is over a limit or may not be mined |
| Miner.BlockAssembler.Choose | src/miner.cpp:326-375 | The package tried next is one that nothing waiting, in the pool or in mapModifiedTx, outranks |
| Miner.BlockAssembler.AddPackageTxs | src/miner.cpp:307-435 | The template has no duplicates, ancestors first, exact totals, weight and sigops within limits. It ends with nothing left that fits as it is counted, or at a package that pays too little while everything that is left and fits has its own or its package feerate at most that of this package, or near the limit after more than 1000 packages in a row that were too big; only entries that were dropped are counted with an excess |
| Miner.BlockAssembler.CreateNewBlock | src/miner.cpp:103-185 | The finished template is valid, ended for one of those reasons, and its fees with that of the coinbase add up to zero |
| CheckQueue.BatchSize | src/checkqueue.h:103-108 | A batch has at least one check, never more than there are or the batch limit, and otherwise as many as an even share among workers and idle ones allows |
| CheckQueue.CCheckQueue.Add | src/checkqueue.h:146-159 | Appends the checks and counts them |
| CheckQueue.CCheckQueue.Locked | src/checkqueue.h:76-118 | One stay in the critical section has the effect of the model: settle the batch, then return, wait or take |
| CheckQueue.CCheckQueue.Continue | src/checkqueue.h:88-117 | The inner part: return with the result reset, wait, or pop a batch from the back |
| CheckQueue.PoppedIsPart | src/checkqueue.h:109-115 | Queue and batch together hold what the queue held |
| CheckQueue.ReturnKeeps | src/checkqueue.h:90-98 | Closing a round keeps the invariant |
| CheckQueue.ResultIsRight | src/checkqueue.h:90-98 | When nothing is left to do, the flag is true exactly if all checks of the round hold |
| CheckQueue.FinishKeeps | src/checkqueue.h:77-84 | Settling a batch keeps the invariant, with the master notified at zero |
| CheckQueue.AddKeeps | src/checkqueue.h:146-159 | Adding keeps it, whoever is woken |
| CheckQueue.StepKeeps | src/checkqueue.h:67-125 | Every step of every thread keeps it, spurious wake-ups included |
| CheckQueue.EveryRunIsRight | src/checkqueue.h:67-159 | For any number of workers and any interleaving: nTodo counts queued and held checks, nothing is lost, and every Wait that returned gave true exactly if all its checks hold |
| CheckQueue.WaitIsNeverStuck | src/checkqueue.h:77-102 | While the master is in Wait some genuine step is enabled; a master asleep without notification has a worker with a batch |
| CheckQueue.NoRunGetsStuck | src/checkqueue.h:67-125 | So no run, of any number of workers, leaves the master waiting with nothing left to happen |
| CheckQueue.StepUsesUp | src/checkqueue.h:67-125 | Every genuine step that does not end the round lowers a potential |
| CheckQueue.WaitEnds | src/checkqueue.h:67-144 | So at most that many genuine steps fit into one Wait |
| CompactBlocks.WriteIndexes | src/blockencodings.h:64-69 | Writes the gaps between positions |
| CompactBlocks.ReadIndexes | src/blockencodings.h:42-63 | Accepts exactly gaps of 16 bits that keep the positions in 16 bits, with an offset that wraps behind the last position |
| CompactBlocks.SendIndexes | src/blockencodings.h:38-69 | A position list survives the wire if and only if it is strictly increasing, and is refused otherwise |
| CompactBlocks.ReadIsCanonical | src/blockencodings.h:42-69 | What is read increases, and would be written as it came, if and only if gaps and their number add up to at most 65536 |
| CompactBlocks.WrappedRequestIsRead | src/blockencodings.h:56-62 | Gaps 65535 and 0 are accepted and read as positions that do not increase |
| CompactBlocks.PlacePrefilled | src/blockencodings.cpp:61-77 | Fails exactly on a null transaction or a position out of range; otherwise fills exactly the prefilled slots |
| CompactBlocks.PrefilledPositions | src/blockencodings.cpp:61-77 | Transactions written with the gaps between their positions are read at those positions |
| CompactBlocks.MapShortIds | src/blockencodings.cpp:84-108 | Succeeds exactly if the ids are distinct and no bucket is crowded. It keeps the 16-bit form of the map of the k-th id to the k-th free slot, and that is the map itself if and only if there are at most 65536 transactions |
| CompactBlocks.OffsetLoopsEnd | src/blockencodings.cpp:84-88 | For every well-formed message the loops over the 16-bit offset all end if and only if it does not have both 65536 prefilled transactions and a short id; with 65536 the first loop meets a filled slot at every turn |
| CompactBlocks.EndlessMessage | src/blockencodings.cpp:84-88 | Such a message, and that its first id never finds a slot |
| CompactBlocks.OffsetFinds | src/blockencodings.cpp:84-88 | With at most 65535 filled slots the offset never wraps and the k-th id gets the k-th free slot |
| CompactBlocks.LastSlotWraps | src/blockencodings.cpp:83-88 | With 65537 transactions the last id has the last slot, which is kept as slot 0 |
| CompactBlocks.Scan | src/blockencodings.cpp:110-167 | Both scans: a slot holds an entry with its id; it stays empty only if none or two entries match; the count is exact and every access in bounds |
| CompactBlocks.PartiallyDownloadedBlock.InitData | src/blockencodings.cpp:51-171 | INVALID exactly for a malformed message, FAILED exactly for colliding or crowded ids, and otherwise every slot is accounted for |
| CompactBlocks.PartiallyDownloadedBlock.MissingIndexes | src/net_processing.cpp:2460-2464 | The empty slots in order as 16-bit numbers, strictly increasing if there are at most 65536 slots |
| CompactBlocks.PartiallyDownloadedBlock.FillBlock | src/blockencodings.cpp:179-221 | INVALID exactly if the number of transactions is wrong, otherwise slots and reply merged in order |
| CompactBlocks.MakeMessage | src/blockencodings.cpp:21-31 | The coinbase prefilled and the short ids of the rest |
| CompactBlocks.Reply | src/net_processing.cpp:1288-1297 | The transactions at the positions asked for, or nothing if one is out of range |
| CompactBlocks.Transfer | src/blockencodings.cpp:21-221 | Compact form, InitData, request, reply and FillBlock rebuild exactly the block, if and only if its own ids neither collide nor crowd, when equal ids mean equal transactions |
| MerkleTree.InTree | src/merkleblock.h:67-69 | A position is below the width of its height exactly if its first leaf exists |
| MerkleTree.Children | src/merkleblock.cpp:41-59 | The leaves of a node are those of its one or two children |
| MerkleTree.LevelIsNodes | src/merkleblock.cpp:41-59 | The nodes of a height are the level below hashed in pairs, left before right, a last odd one with itself |
| MerkleTree.NodesDiffer | src/merkleblock.cpp:101-108 | With an injective hash and distinct txids, nodes of one height have different hashes |
| MerkleTree.MatchedIsAll | src/merkleblock.cpp:79-115 | The list of matches holds exactly the matched positions with their txids |
| MerkleTree.BuildIsSmall | src/merkleblock.h:35-42 | Hashes number at most the leaves and at most one plus matches times height; bits are at least as many |
| MerkleTree.CountBits | src/merkleblock.cpp:61-77 | Flag bits are twice the hashes, less one, plus the nodes with one child that were descended into |
| MerkleTree.FlagBits | src/merkleblock.h:48 | The 2N-1 bound on flag bits holds if and only if no height has a last node with one child and a match below it |
| MerkleTree.TooManyFlagBits | src/merkleblock.h:48 | Three transactions with the last one matched take four bits for two hashes |
| MerkleTree.ExtractBuilt | src/merkleblock.cpp:61-115 | Extracting a built part gives its hash, uses it up exactly and finds exactly the matches, without fBad |
| MerkleTree.ExtractIsGenuine | src/merkleblock.cpp:79-115 | Whatever was sent: a node that comes out with its true hash only yields genuine transactions at their places |
| MerkleTree.ExtractUsesNodes | src/merkleblock.cpp:79-115 | and every stored hash that was used is that of a node of the block |
| MerkleBits.Pack | src/merkleblock.h:100-105 | Eight flags to a byte, least significant first, padded with zeros |
| MerkleBits.Unpack | src/merkleblock.h:93-99 | The flags of the bytes in order |
| PartialMerkleTree.CalcHeight | src/merkleblock.cpp:122-125 | The loop ends with the least height of width one |
| PartialMerkleTree.TopIsMerkleRoot | src/merkleblock.cpp:41-59 | The hash at the top is the Merkle root: the level that is left after pairing until there is one |
| PartialMerkleTree.SizeBound | src/merkleblock.h:33-49 | The promise SIZE <= 10 + ceil(32.25*N) holds if and only if there are few enough flag bits for a one-byte length, or the nodes with one child are few enough for the bits that the last quarter byte leaves |
| PartialMerkleTree.SizeExceeded | src/merkleblock.h:33-49 | It fails for 4097 transactions that are all matched |
| PartialMerkleTree.CPartialMerkleTree.constructor | src/merkleblock.cpp:117-129 | The two vectors of the tree over all leaves |
| PartialMerkleTree.CPartialMerkleTree.TraverseAndBuild | src/merkleblock.cpp:61-77 | Appends the part of a node to the two vectors |
| PartialMerkleTree.CPartialMerkleTree.TraverseAndExtract | src/merkleblock.cpp:79-115 | Moves the cursors, appends the matches and sets fBad as the model does |
| PartialMerkleTree.CPartialMerkleTree.ExtractMatches | src/merkleblock.cpp:133-164 | The root and the matches, their positions appended to the given list, if all checks hold, and otherwise zero |
| PartialMerkleTree.CheckProof | src/merkleblock.cpp:133-164 | An accepted proof with the Merkle root of a block of as many transactions names only transactions of that block, at their positions, and stores only hashes of nodes of that block; and it keeps the limits on its sizes |
| PartialMerkleTree.SendAndCheck | src/merkleblock.cpp:61-164 | Build, pack, unpack and extract: the Merkle root and exactly the matched transactions in order |
| BaseUint.AddAssign | src/arith_uint256.h:142-152 | Sum modulo two to the width, also when both operands are the same object |
| BaseUint.Complement | src/arith_uint256.h:76-82 | The largest number less the value |
| BaseUint.Increment | src/arith_uint256.h:180-187 | Plus one modulo two to the width |
| BaseUint.Negate | src/arith_uint256.h:84-91 | The negative modulo two to the width |
| BaseUint.SubAssign | src/arith_uint256.h:154-158 | The difference modulo two to the width |
| BaseUint.MulAssignLimb | src/arith_uint256.cpp:59-68 | Product with a 32-bit number modulo two to the width; the 64-bit intermediate does not overflow |
| BaseUint.AddRow | src/arith_uint256.cpp:75-82 | One row of the long multiplication |
| BaseUint.MulAssign | src/arith_uint256.cpp:71-84 | Product modulo two to the width; zero if the operand is the number itself |
| BaseUint.SelfProduct | src/arith_uint256.cpp:71-84 | So a number times itself is right if and only if the lower half of its bits is zero |
| BaseUint.CompareTo | src/arith_uint256.cpp:113-122 | The order of the numbers |
| BaseUint.Bits | src/arith_uint256.cpp:175-187 | The position of the highest set bit plus one |
| BaseUint.ShiftLeftAssign | src/arith_uint256.cpp:25-39 | Times two to the shift, modulo two to the width, for every shift |
| BaseUint.ShiftRightAssign | src/arith_uint256.cpp:42-56 | The floor of the quotient by two to the shift, for every shift |
| BaseUint.DivideStep | src/arith_uint256.cpp:100-107 | One bit of the quotient: subtract and set, or not, and shift the divisor back |
| BaseUint.DivAssign | src/arith_uint256.cpp:87-110 | The exact floor quotient, and an error exactly for zero |
| CompactTarget.SetCompact | src/arith_uint256.cpp:207-225 | The encoded number modulo 2^256; negative and overflow are set exactly when they should be, overflow exactly from 2^256 on |
| CompactTarget.CompactParts | src/arith_uint256.cpp:207-225 | A compact number is taken apart into the byte, the sign and the 23 bits it was put together from, and stands for these bits times 256 to the byte less three |
| CompactTarget.OverflowBound | src/arith_uint256.cpp:220-223 | The three byte tests together say that the encoded number reaches 2^256 |
| CompactTarget.GetCompact | src/arith_uint256.cpp:227-248 | Its asserts hold; the result stands for the number less its low bytes, with a mantissa of at least 16 bits where bytes are dropped |
| ProofOfWork.CheckProofOfWork | src/pow.cpp:75-93 | True exactly for a positive target up to the limit that the hash does not exceed |
| ProofOfWork.GetBlockProof | src/chain.cpp:124-137 | floor(2^256 / (target + 1)) for every valid target and zero for every other |
| ProofOfWork.NotAllOnes | src/chain.cpp:124-137 | No compact number stands for 2^256 - 1, so target + 1 does not wrap |
| ProofOfWork.CalculateNextWorkRequired | src/pow.cpp:50-73 | The compact form of the clamped, scaled and limited target, with the 32-bit multiplication of the code |
| ProofOfWork.RetargetScales | src/pow.cpp:55-72 | With a timespan below 2^30 the new target is the old one times the elapsed time over the timespan, the time held between a quarter and four times the timespan, rounded down and capped, if and only if the product fits into 256 bits or what is left of it reaches the limit |
| ProofOfWork.RetargetExact | src/pow.cpp:55-72 | Where four times the product fits: the exact new target in and beyond the range, at most a quarter of the old one for blocks that came too fast, four times for blocks that came too slow, and the old one for the timespan itself |
| ProofOfWork.RetargetMonotone | src/pow.cpp:55-72 | There the new target does not fall as the elapsed time grows |
| ProofOfWork.RetargetWraps | src/pow.cpp:64-69 | Where it does not fit it can: at the easiest compact target blocks that take four times as long lower it |
| ProofOfWork.RetargetIsChecked | src/pow.cpp:50-93 | A retargeted nonzero target passes the range check, and every one is at most the limit and four times the old target |
| BlockTree.LowestOneGoes | src/chain.cpp:73 | The lowest one bit is turned off, at every number |
| BlockTree.GetSkipHeight | src/chain.cpp:76-84 | A height strictly below the given one |
| BlockTree.GetAncestor | src/chain.cpp:86-111 | The walk over skip pointers gives the block that walking pprev gives, and null exactly out of range; with all skip pointers set it takes at most d*d steps below height 2^d |
| BlockTree.WalkIsShort | src/chain.cpp:76-111 | From any height below 2^d to any lower one the choices of the walk take at most d*d steps |
| BlockTree.BlockIndex.AddEntry | src/chain.cpp:118-122 | A new entry with BuildSkip keeps every skip pointer right |
| BlockTree.Grown | src/chain.cpp:118-122 | The same for the links and pointers of the whole tree |
| BlockTree.LastCommonAncestor | src/chain.cpp:158-173 | The highest common block, or null if there is none; its assert holds |
| ActiveChain.CChain.SetTip | src/chain.cpp:14-24 | In spite of the early stop the chain is the full path of the tip |
| ActiveChain.ChainSurvives | src/chain.cpp:14-24 | A chain stays the full path of its tip when the index grows |
| ActiveChain.Run | src/chain.cpp:14-24 | Over any run of new index entries and new tips, the tree and the chain keep their shape |
| ActiveChain.CChain.FindFork | src/chain.cpp:54-63 | The highest block of the chain that is the given one or an ancestor of it |
| ActiveChain.CChain.GetLocator | src/chain.cpp:26-52 | Ancestors from the start to the root: the first twelve one apart, each further one twice as far below as the last, and the root in the end; at most twelve plus the logarithm of the height many |
| ActiveChain.LocatorHeights | src/chain.cpp:26-52 | The exact height of every entry |
| ActiveChain.LocatorUnique | src/chain.cpp:26-52 | A start has one locator |
| ActiveChain.LocatorReaches | src/chain.cpp:26-52 | Wherever another chain branches off, an entry at or below that point is at most twice as deep, and exactly there for the last eleven blocks |
| ActiveChain.StepDown | src/chain.cpp:38-46 | Index and skip list give the same block |
| InFlight.UnlinkKeeps | src/net_processing.cpp:313-334 | Taking a block out of a queue keeps map and queues in agreement |
| InFlight.LinkKeeps | src/net_processing.cpp:339-370 | So does appending one |
| InFlight.PeerLogic.MarkBlockAsReceived | src/net_processing.cpp:313-334 | Removes the block from the map and from the one queue that lists it; all counters stay exact |
| InFlight.PeerLogic.MarkBlockAsInFlight | src/net_processing.cpp:339-370 | The block ends at the end of that peer's queue alone; other queues do not grow; all counters stay exact |
| InFlight.PeerLogic.InitializeNode | src/net_processing.cpp:577-587 | A fresh peer is consistent |
| InFlight.PeerLogic.SetFlags | src/net_processing.cpp:279-287 | The global counters follow the flags of the peers |
| InFlight.PeerLogic.FinalizeNode | src/net_processing.cpp:589-622 | All its asserts hold; exactly the blocks of that peer leave the map |
| InFlight.PeerLogic.Request | src/net_processing.cpp:3647-3657 | A request that first looks at the peer's counter keeps every queue within the limit |
| InFlight.PeerLogic.Run | src/net_processing.cpp:313-370 | Over every run map and queues are in bijection, per-peer and global counters exact, and queues within the limit |
| BlockDownload.WantedIsFetchable | src/net_processing.cpp:525-555 | The wanted blocks ascend, are on the way to the best block, and are neither stored, active nor in flight |
| BlockDownload.LookAt | src/net_processing.cpp:525-555 | One block of the path: every branch fixes list, common block and awaited peer; the reason for stopping; and the staller if and only if the list is empty and the wanted block behind the window waits for another peer |
| BlockDownload.CommonIsHighest | src/net_processing.cpp:534-536 | The recorded common block is the highest one stored with all its ancestors, or the starting point |
| BlockDownload.StartIsFork | src/net_processing.cpp:487-497 | Without a common block from before, the search starts at the highest block of the active chain on the way to the best block |
| BlockDownload.WaitingIsFirst | src/net_processing.cpp:549-552 | The awaited peer is that of the lowest block in flight |
| BlockDownload.Successors | src/net_processing.cpp:516-519 | The batch filled from the top down is the path in order |
| BlockDownload.Walk | src/net_processing.cpp:501-556 | The loop ends; no refused block is passed; the list is the wanted blocks in order up to a stated reason, within the window and the count |
| BlockDownload.BestKnown | src/net_processing.cpp:373-386 | One of the two blocks, and with no less work than either that counts |
| BlockDownload.FindNextBlocksToDownload | src/net_processing.cpp:473-557 | Brings the best known block up to date; nothing for a peer without enough work; otherwise the search starts at the highest common block, and list, new common block and staller are those of the search; every block listed has a valid header, can be had from this peer, and is neither here nor in flight |
| RollingBloom.NewGeneration | src/bloom.cpp:261-276 | Wiping for a new generation forgets exactly the keys of the oldest one |
| RollingBloom.OneMoreKey | src/bloom.cpp:279-286 | Setting the bits of a key adds exactly that key to the current generation |
| RollingBloom.SamePlace | src/bloom.cpp:279-286 | Two hashes share a place if and only if they agree in the low bits and in the pair of words |
| RollingBloom.CRollingBloomFilter.Reset | src/bloom.cpp:323-331 | An empty filter |
| RollingBloom.CRollingBloomFilter.Wipe | src/bloom.cpp:267-275 | The word-wise mask clears exactly the positions of the generation that begins |
| RollingBloom.CRollingBloomFilter.SetAll | src/bloom.cpp:279-286 | Exactly the places of the key are set to the current generation |
| RollingBloom.CRollingBloomFilter.Insert | src/bloom.cpp:259-287 | Keeps the exact meaning of every position, across any number of generations |
| RollingBloom.CRollingBloomFilter.Contains | src/bloom.cpp:296-308 | True if and only if each place of the key is the place of a key not forgotten |
| RollingBloom.CRollingBloomFilter.RecentKeyIsContained | src/bloom.cpp:259-308 | Each of the last two generations and of the current one is contained |
| RollingBloom.CRollingBloomFilter.ContainsRecent | src/bloom.cpp:214-308 | Hence every one of the last nElements keys is contained |
| Bech32Checksum.StepLinear | src/bech32.cpp:64-92 | A step of PolyMod is linear over GF(2) |
| Bech32Checksum.StepInjective | src/bech32.cpp:64-92 | and injective on 30-bit states |
| Bech32Checksum.PolyMod | src/bech32.cpp:37-94 | The loop computes the fold of the steps |
| Bech32Checksum.PolyInjective | src/bech32.cpp:37-94 | Different states stay different under the same symbols |
| Bech32Checksum.OneErrorShows | src/bech32.cpp:37-94 | Changing one symbol always changes the checksum |
| Bech32Checksum.PolyTail | src/bech32.cpp:128-139 | Six symbols add to what six zeros give |
| Bech32Checksum.CreateChecksum | src/bech32.cpp:128-139 | The six symbols that make the checksum one, and the only such |
| Bech32.RevOfChar | src/bech32.cpp:12-25 | The two tables are inverse, and no symbol is spelled 1 or in upper case |
| Bech32.CharOfRev | src/bech32.cpp:12-25 | and back, up to case |
| Bech32.Encode | src/bech32.cpp:147-156 | The one string that spells prefix, values and a right checksum |
| Bech32.Decode | src/bech32.cpp:159-189 | Accepts exactly the strings that meet all conditions, and gives what the lower-case string spells |
| Bech32.EncodeAndDecode | src/bech32.cpp:147-189 | Gives the inputs back for every legal lower-case prefix, if and only if the string has at most 90 characters |
| Bech32.DecodeAndEncode | src/bech32.cpp:147-189 | Gives the string back in lower case whenever it decodes |
| Bech32.OneErrorIsDetected | src/bech32.cpp:118-125 | Two strings with one prefix that differ in one symbol do not both verify |
| Bech32Field.PowerIsTimes | src/bech32.cpp:51-57 | In GF(1024), multiplying n times by the primitive element is one multiplication by its n-th power |
| Bech32Field.OrderDivides1023 | src/bech32.cpp:46-49 | The 1023rd power of the element is one |
| Bech32Field.NoShortCycle | src/bech32.cpp:46-49 | and no smaller one fixes anything but zero, so 1023 is the width of the window |
| Bech32Errors.Roots | src/bech32.cpp:44-49 | The generator behind the five constants vanishes at three consecutive powers of the element |
| Bech32Errors.FeedbackAt | src/bech32.cpp:75-91 | At such a root, what PolyMod feeds back has the value of the coefficient that leaves times the sixth power |
| Bech32Errors.ValueOfStep | src/bech32.cpp:64-92 | so each step multiplies the value of the state by the root and adds the symbol |
| Bech32Errors.ValueOfSparse | src/bech32.cpp:64-92 | and the value after any run is the sum over the symbols that are not zero |
| Bech32Errors.Vandermonde | src/bech32.cpp:44-49 | Three such sums at consecutive powers are zero only if their terms are |
| Bech32Errors.ThreeErrorsShow | src/bech32.cpp:44-49 | Sequences of any length that differ in one to three symbols within a window of 1023 have different checksums |
| Bech32Errors.ErrorsAreDetected | src/bech32.cpp:159-189 | Beside a string that Decode accepts, none with the same prefix and separator that differs, up to case, in one to three characters is accepted |
| Bech32Errors.PrefixErrorsAreDetected | src/bech32.cpp:103-125 | Nor is any with the separator at the same place that differs in one to three places, counting the high bits and the low bits of a prefix character and the characters behind the separator |
| Bech32Errors.PrefixErrorIsDetected | src/bech32.cpp:103-125 | So one wrong character in the prefix is detected, also beside one behind the separator |
| Bech32Known.ShortIsValid | src/bech32.cpp:12-189 | The string a12uel5l of BIP 173 is accepted and stands for the prefix a and no values |
| Bech32Known.LongIsValid | src/bech32.cpp:12-189 | A string of BIP 173 with every symbol in it is accepted and stands for the prefix abcdef and the symbols in order |
| Digits.SizeSuffices | src/base58.cpp:77 | A ratio of powers bounds the digits in one base by those in another, at every length |
| Digits.MulAdd | src/base58.cpp:83-90 | The carry loop multiplies and adds exactly; the carry is zero at the end |
| Digits.Strip | src/base58.cpp:95-98 | The digits without leading zeros |
| Base58.EncodeRoom | src/base58.cpp:77 | The 138/100 buffer is enough at every length |
| Base58.DecodeRoom | src/base58.cpp:30 | The 733/1000 buffer is enough at every length |
| Base58.AlphabetOrder | src/base58.cpp:15 | The alphabet is the digits and letters but 0, O, I and l, in the order of their codes |
| Base58.EncodeBase58 | src/base58.cpp:67-107 | The Base58 form: ones for leading zeros, then the number; the assert holds |
| Base58.DecodeDigits | src/base58.cpp:31-51 | The number of the characters, or the first that is no digit; the assert holds |
| Base58.DecodeBase58 | src/base58.cpp:17-65 | Succeeds exactly if the string without outer spaces is in the alphabet, and gives the bytes it is the form of |
| Base58.EncodesOnce | src/base58.cpp:17-107 | Bytes have one form and a form has one byte string |
| Base58.EncodeAndDecode | src/base58.cpp:17-107 | Gives every byte string back |
| Base58.DecodeAndEncode | src/base58.cpp:17-107 | Gives the trimmed string back whenever it decodes |
| Receiving.FeedAppend | src/net.cpp:743-793 | Feeding two pieces is feeding one and then the other, up to a rejection |
| Receiving.FeedHeader | src/net.cpp:822-851 | A run of header bytes at once is the same as byte by byte |
| Receiving.FeedData | src/net.cpp:853-868 | So is a run of data bytes |
| Receiving.StreamAdmits | src/net.cpp:743-793 | A stream that was not rejected has only messages of at most four million bytes, each of the size its header announces; one that was rejected ends in a header that announces nothing or more |
| Receiving.Receiver.Absorb | src/net.cpp:751-775 | One turn of the loop handles at least one byte |
| Receiving.Receiver.ReceiveMsgBytes | src/net.cpp:743-793 | A chunk has the effect of its bytes one after the other |
| Receiving.Receiver.ReceiveAll | src/net.cpp:743-793 | However a stream is cut into chunks, the messages and the rejection are those of the stream |
| Sending.Sender.SocketSendData | src/net.cpp:887-937 | Its asserts hold; bytes move in order from the queue to what was sent, exactly as many as the socket takes |
| Sending.ReadySocketTakesAll | src/net.cpp:887-937 | A socket that takes all it is given is given the whole queue |
| Sending.Sender.PushMessage | src/net.cpp:2823-2858 | Appends header and data, and sends at once if and only if the queue was empty; nSendSize and fPauseSend stay exact |
| Sending.Sender.Run | src/net.cpp:2823-2858 | Over every run of pushes and sends, with any answers of the socket, the bytes sent are a prefix of the messages pushed |
| Sending.StreamArrives | src/net.cpp:743-868 | The bytes of any run of pushes, fed to an empty receiver, give exactly the pushed messages, all complete |
| Sending.Deliver | src/net.cpp:743-937 | So once all was sent, however the bytes are cut, the receiver holds the pushed messages in order |

## Left out

- Miner.BlockAssembler.AddPackageTxs: feerates are compared exactly, where the code compares products of doubles; where their rounding could tie or swap two packages, the choice between them is not that of the model.
- CompactBlocks.PartiallyDownloadedBlock.InitData: requires exactly that the code returns, by CompactBlocks.OffsetLoopsEnd; over 65536 transactions, which no valid block has, only the status, the header and the number of slots are stated; the counters kept only for the log are not modelled.
- PartialMerkleTree.SizeBound: for up to 16666 transactions, the most that the code accepts in a proof.
- BaseUint.ShiftLeftAssign: a bitwise or of parts without a common bit is written as a sum; that the parts have none is checked.
- BlockDownload.FindNextBlocksToDownload: requires that the starting point and the peer's best block have a common ancestor; without one the common block is null and the code reads through it.
- InFlight.PeerLogic.SetFlags: the conditions under which handlers set the flags are not modelled, nor are download times.
- RollingBloom.CRollingBloomFilter.Insert: a hash number is given as its high and low parts; Murmur hashing and the sizing of the filter by logarithms are not modelled.
- Bech32Errors.ThreeErrorsShow: the further promise, four errors within 89 characters, is not proved, because it rests on an exhaustive search for the generator and not on its roots.
- Receiving.Receiver.ReceiveMsgBytes: the flag that a message was completed and the byte counters per command are not modelled.
- Sending.Sender.SocketSendData: socket errors and disconnects count as sending nothing.
- Choosing an address at random (`Select_`, `GetChance`): floating point and probabilistic termination.
- The memory layout behind memory usage (`memusage.h` is not part of this model): a script is charged its length when it is stored outside its inline buffer.
- Mempool entry, eviction and fee estimation: only the graph, its cached totals and the two traversals that block assembly uses.
- `GetNextWorkRequired`'s walk for minimum-difficulty blocks, `GetBlockProofEquivalentTime`, `FindEarliestAtLeast`.
- Orphan transactions, eviction of outbound peers, message handlers, sockets, DNS and bans.
- The plain Bloom filter, Base58Check, address encodings, key handling, start-up and storage plumbing.
- The unfinished graph-ledger prototype in `sdag/`.

# Verified model of the blockchain exporter

The exporter pulls blocks from chain nodes, turns them into ordered, keyed batches of events, writes each batch to
Kafka in one transaction and then saves a position in Zookeeper. This project models its logic in Dafny and proves what
it promises. `dafny verify dfyconfig.toml` checks everything.

## What is modelled

| file | part of the exporter |
|---|---|
| `Common.dfy` | options and results, and the sequence functions all models share |
| `ExportProtocol.dfy` | the run of the exporter as a state machine, with a crash between any two steps |
| `WorkLoop.dfy` | the work loop, the base worker and the Kafka/Zookeeper exporter as objects; every run of them is a run of the machine |
| `Partitioning.dfy` | the 32-bit hash, the partition of an event, the signal records |
| `TraceTrie.dfy`, `FilterErrors.dfy` | marking the calls below failed calls with a heap-allocated trie, and dropping failed calls |
| `FetchEvents.dfy`, `FilterEvents.dfy`, `CustomDistribution.dfy`, `AddedTransfers.dfy`, `ChunkedFetch.dfy` | bisection of rejected log queries, decoding, dropping repeated mints and burns, the constant transfers added to a contract's fetch, the concurrent fetch |
| `DecodedLogs.dfy`, `RepeatedTransfers.dfy`, `FetchedTransfers.dfy` | what decoding, filtering and the whole fetch yield, told from the fields of logs and transfers |
| `StableSorting.dfy`, `ContractOverwrites.dfy`, `EventKeys.dfy`, `EventBatches.dfy` | order, overwritten contracts and primary keys of ERC20 transfers |
| `OverwrittenAmounts.dfy`, `RecordOrder.dfy` | contract and amount of an overwritten transfer, told from the configuration; the order of the exported records, told from their fields |
| `BlocksList.dfy`, `Erc20Worker.dfy` | the list of blocks to export, and the ERC20 worker over all of the above |
| `ExportKeys.dfy`, `AppendedKeys.dfy`, `ListConfirmations.dfy`, `CatchingUp.dfy`, `Erc20Protocol.dfy` | how fast work calls catch up; when keys identify records, told from logs and settings; when a list of blocks exports unconfirmed ones; the run of the exporter carrying ERC20 records |
| `BalanceUtils.dfy`, `MulticallBlacklist.dfy`, `AddBalances.dfy`, `BlacklistUse.dfy`, `BlacklistOverlap.dfy`, `Enrichment.dfy`, `Balancing.dfy`, `BalanceAnswers.dfy`, `Erc20Balances.dfy`, `BalanceSides.dfy`, `Chunks.dfy` | the balances of transfers, requested in batches by concurrent tasks that share a blacklist, and carried by the records |
| `BeaconDays.dfy`, `BeaconBalances.dfy`, `BeaconWorker.dfy`, `BeaconRecords.dfy`, `BeaconRestart.dfy` | the daily validator balances |
| `Grouping.dfy`, `EthOrder.dfy`, `EthQuality.dfy` | order, end-of-block marks and quality checks of ETH transfers |
| `CardanoBlocks.dfy`, `CardanoWorker.dfy` | exporting whole blocks from answers that may break off |

Nodes, Kafka, Zookeeper and the operator are parameters: whatever they answer, including failures and the order in which
concurrent answers arrive. What a theorem assumes of them is a named predicate in its `requires` (`Honest`,
`OneBlockPerTransaction`, `Snapshots`, and so on). Values and balances are integers, and a transaction hash is a number, 0
standing for a hash that is absent or empty, because the code only compares hashes and tests them for presence.

A log query that the node answers is taken to return the logs of the range that match the contract filter, compared
without regard to case, block by block; what it finds too big, and where it fails, is arbitrary.

The native sort is modelled by a method that promises no more than a sorted permutation; `stableSort` is proved to be
stable whatever that sort does with ties. Where the code sorts without `stableSort` (ETH), the sort is taken as stable.

## What the proofs found

- Over every run the duplicated block copies are exactly the lost blocks and the setback of the position, less what the
  committed head is ahead of the position (`DuplicatesAreExactly`). Lost blocks are at most one interval per crash between
  a commit and the save of its position, so without setback that is the bound (`DuplicatesAreBounded`). Two things set
  the position back: a restart that cannot read a saved position (`RestartMovesBackIff`), and a work call of a worker whose
  node lags behind the position (`WorkMovesBackIff`, an instance is `LaggingNodeMovesPositionBack`). The ERC20 worker does
  the latter, returning nothing (`InvertedIntervalIsEmpty`). The ETH worker throws on a range turned round
  (`InvertedRangeThrows`), the Cardano position only rises (`StepKeeps`), and the beacon position goes from day to day
  (`DaysAreConsecutive`). Coverage holds in every case (`NoGapAndNothingUnconfirmed`).
- With distinct addresses, dropping failed calls keeps the callers of what it keeps iff no call without an error and
  without a failed caller lies below a trace with an empty error string (`CallersSurviveIff`; `EmptyErrorOrphans` is an
  instance). Dropping again never drops more, and fails iff a transaction's first survivor is such a call below its root
  (`SecondPassFailsIff`). The trie marks what the plain rule marks, a trace without an error below a failed caller, iff no
  later trace takes the place of such a trace or of all its failed callers (`AllPlainIffNoneHidden`;
  `RepeatedAddressHidesFailure` is an instance).
- With contracts exported under a new address beside others as they are, keys identify records iff no contract is in both
  lists and the contract with the constant transfers is not in one of two lists (`KeysIdentifyIff`): a contract in both is
  exported twice under one key, and the constant transfers are numbered behind the logs of their own list only, where the
  other list may have a log. With appended copies a record loses its key iff a copy runs past the keys of its block into a
  used one (`RecordsHaveOwnKeysIff`), which some node makes happen iff any event can be copied
  (`AppendedKeysIdentifyIff`).
- The grouping of transfers by transaction cuts the first transaction in two exactly when the list opens with an event
  without hash (`GroupsAreTransactions`).
- A beacon day with at most 140,000 changes is exported but never completed: the position stays where it is for ever
  (`DayOfOneBatchNeverEnds`). From the default position the genesis day is skipped (`DefaultStartSkipsGenesisDay`), and
  with less than 384 seconds of the genesis day left that day would be exported over and over (`ShortGenesisDayRepeats`).
- The ETH worker counts only the transfers when it advances its last key, so the next call reuses as many keys as the
  range has blocks (`NextCallReusesKeys`). The comment above `collectEndOfBlocks` calls the end of the range exclusive;
  the code includes it, and the model follows the code.
- The ETH quality check keeps transfers outside the range out iff the second node confirms no block of the range as empty
  (`AdmitsOnlyRangeIff`); each empty block lets a foreign one through (`OutsideBlockPasses`).
- A blacklisted contract can leave the blacklist iff a request about it is under way (`CanLeaveIffAsked`), and does so
  when an answer holds an amount for it (`MoveTakesOffIff`); two transfers of a contract in different blocks are enough
  (`OverlapTakesOff`). The comment above the blacklist says that a contract stays for the lifetime of the process; the
  model follows the code, and proves the comment for a contract nobody is asking about (`UnaskedStaysListed`) and for
  requests that do not overlap (`ListedStaysWithoutOverlap`).
- A beacon process that stops within a day repeats the whole day, from its first batch (`CrashWithinDayRepeatsIt`).
- With a list of blocks the ERC20 worker takes the interval from the list as it is, without regard to confirmations. As
  long as the node offers nothing newer, all it exports is confirmed iff the confirmed block straddles none of the
  intervals left (`StaysConfirmedIff`), and whatever the node offers, iff each interval ends where the confirmed block
  already must be (`NeverEarlyIff`); `TenBlocksAtFive` is an instance.

## Model

| member | source | states |
|---|---|---|
| ExportProtocol.RunKeeps | src/main.ts:97-117 | every run from the initial state, crashes and failed position reads anywhere, keeps: the log is the recorded history, each recorded interval was confirmed by a reported head, the saved position is covered |
| ExportProtocol.NoGapAndNothingUnconfirmed | src/lib/kafka_storage.ts:355-375 | over every run each event of the blocks (START_BLOCK, saved position] is in the committed log, and each event in the log is the chain's and at most a reported head minus CONFIRMATIONS |
| ExportProtocol.DuplicatesAreExactly | src/main.ts:97-117 | over every run duplicated block copies are exactly lost blocks + setback - (head - position), with at most BLOCK_INTERVAL lost blocks a lost save, the head at most setback + BLOCK_INTERVAL past the position, and an event at most lost + retreats + 1 times as often as in the chain |
| ExportProtocol.DuplicatesAreBounded | src/main.ts:97-117 | in particular, over every run without failed reads or moves backwards there is no setback, the committed head is at most position + BLOCK_INTERVAL, duplicated block copies are at most lost saves x BLOCK_INTERVAL, and no event is in the log more than lost + 1 times as often as in the chain |
| ExportProtocol.RestartMovesBackIff | src/lib/worker_base.ts:69-83 | restoring the position at a restart moves it back exactly when there is a saved position past the start that cannot be read |
| ExportProtocol.WorkMovesBackIff | src/blockchains/eth/lib/next_interval_calculator.ts:19-55 | a work call lowers the position exactly when the worker is caught up and a newer confirmed block is still below its position, and is counted as a move back exactly then |
| ExportProtocol.LaggingNodeMovesPositionBack | src/lib/worker_base.ts:69-83 | a concrete run with a restart on a lagging node in which no read fails and no save is lost, yet the committed head ends more than BLOCK_INTERVAL past the position |
| ExportProtocol.LogCount | src/lib/kafka_storage.ts:311-340 | the log holds an event as often as its block was exported times its count in the block |
| CatchingUp.CaughtUpIff | src/blockchains/eth/lib/next_interval_calculator.ts:50-55 | k work calls take the position of the protocol from p to the confirmed block c iff k is at least ceil((c - p) / BLOCK_INTERVAL) |
| CatchingUp.CallsAdvance | src/blockchains/eth/lib/next_interval_calculator.ts:50-55 | after k calls the position is min(p + k x BLOCK_INTERVAL, c) |
| WorkLoop.BaseWorker.InitPosition | src/lib/worker_base.ts:69-83 | the worker starts from the recovered position if there is one, else from the configured one |
| WorkLoop.BaseWorker.AnalyzeWorkerContext | src/blockchains/eth/lib/next_interval_calculator.ts:19-29 | the node is asked only when caught up; context and confirmed block are those of the machine; a failing node changes nothing |
| WorkLoop.BaseWorker.Work | src/blockchains/eth/lib/next_interval_calculator.ts:19-55 | a call fails exactly when the worker is caught up and the node gives no head, or there is an interval to fetch and the node does not give its events; else it returns exactly the events of the next interval and moves the position to its end |
| WorkLoop.Exporter.SendData | src/lib/kafka_storage.ts:311-340 | events enter the open transaction in order until Kafka refuses one |
| WorkLoop.Exporter.StoreEvents | src/lib/kafka_storage.ts:355-375 | all events are committed or none, and the transaction is closed either way |
| WorkLoop.Exporter.SavePosition | src/lib/kafka_storage.ts:269-288 | the register holds the new position if the save works, else the old one |
| WorkLoop.RunStore | src/lib/kafka_storage.ts:355-375 | begin, produce and commit or abort take the machine from Worked to Stored with the whole interval in the log, or down with the log unchanged |
| WorkLoop.Main.HandleInitPosition | src/main.ts:38-42 | recovering and re-saving the position is a read and a save step of the machine, or a crash |
| WorkLoop.Main.Iterate | src/main.ts:97-117 | one pass of the loop is a path of the machine that ends between iterations or down |
| WorkLoop.Main.WorkLoop | src/main.ts:97-117 | however the node, Kafka, Zookeeper and the operator answer, the loop extends a run of the machine, and afterwards everything up to the saved position is in Kafka and nothing in Kafka is foreign to the chain |
| Partitioning.SimpleHash | src/blockchains/erc20/erc20_worker.ts:27-38 | the loop of shifts, subtractions and 32-bit wraps equals the absolute value of the base-31 polynomial wrapped once to 32 bits |
| Partitioning.SimpleHashOf | src/blockchains/erc20/erc20_worker.ts:22-38 | the hash lies in [0, 2^31] |
| Partitioning.WrappedStep | src/blockchains/erc20/erc20_worker.ts:32-36 | wrapping to 32 bits at every step, also inside the shift, comes to wrapping the exact polynomial step |
| Partitioning.PartitionOf | src/lib/kafka_storage.ts:103-110 | the chosen partition is one of the topic's partitions |
| Partitioning.Producer.SendEvent | src/lib/kafka_storage.ts:319-332 | the event goes to its partition and, with signals, one signal to each other partition |
| Partitioning.Producer.SendData | src/lib/kafka_storage.ts:311-340 | every partition grows by exactly its records for the events, in order; signals without a partitioner are an error and send nothing |
| Partitioning.EachEventOnOnePartition | src/lib/kafka_storage.ts:318-332 | with signals every partition gets n records for n events, and record k is event k on exactly one partition and the signal on all others |
| Partitioning.RecordsStandForEvents | src/lib/kafka_storage.ts:318-332 | every record sent has the primary key of one of the events as its key, or none where no key field is set, and that event if it holds one; with signals record k stands for event k on every partition |
| Partitioning.ContractStaysInOrder | src/blockchains/erc20/erc20_worker.ts:106 | partitioned by the hash of the contract, all events of a contract are on one partition, in their order, and on no other, with or without signals |
| TraceTrie.MarkChildrenRecursive | src/blockchains/eth/lib/custom_trie.ts:136-151 | one pass below a node marks exactly the traces without an error of their own below a failure, in place, and visits each node of the subtree once |
| TraceTrie.ConstructTrieFromPathVector | src/blockchains/eth/lib/custom_trie.ts:101-134 | inserting an address adds exactly the missing nodes on its path and leaves every other node as it is |
| TraceTrie.MarkChildrenWithFailedParents | src/blockchains/eth/lib/custom_trie.ts:64-98 | the trie marks in place exactly the traces the quadratic rule marks and changes nothing else, fails exactly on a missing or inner first trace, and visits at most roots + letters nodes |
| TraceRules.AllPlainIffNoneHidden | src/blockchains/eth/lib/custom_trie.ts:64-151 | the marks of a list are those of the plain rule (no own error, and a strict-prefix address in the segment with a truthy error) iff no trace that the plain rule marks has its place, or the places of all its failed callers, taken by a later trace of the same segment and address |
| TraceRules.MarkedIffCallerFailed | src/blockchains/eth/lib/custom_trie.ts:64-151 | so with distinct addresses per root segment a trace is marked iff it has no error and a strict-prefix address in its segment has a truthy error |
| TraceRules.RepeatedAddressHidesFailure | src/blockchains/eth/lib/custom_trie.ts:64-98 | an instance: a list in which a repeated address keeps a call below a failed one unmarked |
| FilterErrors.SetErrors | src/blockchains/eth/lib/filter_errors.ts:25-37 | marking group by group marks in place what the rule over the whole list marks, and fails exactly when a transaction does not start with a root trace |
| FilterErrors.GroupAgrees | src/blockchains/eth/lib/filter_errors.ts:25-37 | a trace is marked within its transaction's group iff it is marked in the whole list |
| FilterErrors.FilterErrors | src/blockchains/eth/lib/filter_errors.ts:25-57 | the result is the action traces that survive the rule, in order, or an error when a transaction does not start with a root trace |
| FilterErrors.CallersSurviveIff | src/blockchains/eth/lib/filter_errors.ts:52-57 | with distinct addresses every present caller of every surviving trace survives iff no trace without error and without a failed caller lies below a trace whose error is the empty string |
| FilterErrors.SurvivorsKeepAncestors | src/blockchains/eth/lib/filter_errors.ts:52-57 | so it does when no error is the empty string |
| FilterErrors.SurvivorsKeepRoots | src/blockchains/eth/lib/filter_errors.ts:52-57 | then the root trace of a surviving trace survives as well |
| FilterErrors.SecondPassFailsIff | src/blockchains/eth/lib/filter_errors.ts:52-57 | a second application never drops anything, and fails iff in some transaction the first trace without error and without a failed caller lies below a root whose error is the empty string |
| FilterErrors.FilteringTwiceIsFilteringOnce | src/blockchains/eth/lib/filter_errors.ts:52-57 | when no error is the empty string a second application neither fails nor changes anything |
| FilterErrors.EmptyErrorOrphans | src/blockchains/eth/lib/filter_errors.ts:52-57 | with an empty error string the root is dropped, its call stays, and filtering again fails |
| FetchEvents.BisectionIsExact | src/blockchains/erc20/lib/fetch_events.ts:259-290 | for any pattern of rejections a fetch that ends well returns exactly the wanted logs of each block, in order of blocks |
| FetchEvents.BisectionIsCheap | src/blockchains/erc20/lib/fetch_events.ts:259-290 | n blocks take at most 2n - 1 log queries |
| FetchEvents.RejectingNodeCostsMost | src/blockchains/erc20/lib/fetch_events.ts:259-290 | a node that rejects every query is served by receipts and costs exactly 2n - 1 log queries |
| FetchEvents.BisectionAdapts | src/blockchains/erc20/lib/fetch_events.ts:278-283 | when ranges of at most m blocks are not too big, n blocks (2n at least m) take fewer than 4n / m log queries: the price of halving, which splitting elsewhere does not meet |
| FetchEvents.BisectionFailsOnlyWithTheNode | src/blockchains/erc20/lib/fetch_events.ts:237-290 | a fetch fails only with an error of another kind that the node gave within the range |
| FetchEvents.DecodeEvents | src/blockchains/erc20/lib/fetch_events.ts:292-305 | the loop yields the decoded events in the order of the logs, skipping those that do not decode |
| FetchEvents.DecodedKinds | src/blockchains/erc20/lib/fetch_events.ts:58-217 | the parties of a decoded event tell its kind: mint iff a mint, CreateBAT or deposit; burn iff a burn, a withdrawal or QNT sent to its own contract; freezes are BNB's, deposits and withdrawals WETH's |
| FetchEvents.DecodedComesFromALog | src/blockchains/erc20/lib/fetch_events.ts:39-56 | a decoded event has the transaction, block, log index and transaction index of a log |
| DecodedLogs.DecodesIff | src/blockchains/erc20/lib/fetch_events.ts:207-217 | a log decodes iff it has a Transfer signature and three topics, or a signature with one address and two topics, freezes of the BNB and deposits and withdrawals of the WETH contract only |
| DecodedLogs.DecodedFields | src/blockchains/erc20/lib/fetch_events.ts:39-205 | from the raw log: amount, lower-case contract and place are the log's; a Transfer goes from the address of topic 1 to that of topic 2 unless it burns QNT; each other event has the address of topic 1 on its own side and a name on the other |
| DecodedLogs.DecodingInvertsLogging | src/blockchains/erc20/lib/fetch_events.ts:61-217 | a round trip: the log of any contract event, its addresses padded to 32 bytes, decodes to the addresses, or not at all when the event is bound to another contract |
| DecodedLogs.DecodedInOrder | src/blockchains/erc20/lib/fetch_events.ts:292-305 | transfer k of a decoded list tells the k-th log that tells a transfer |
| DecodedLogs.LowerCase | src/blockchains/erc20/lib/fetch_events.ts:52 | lower case moves the capitals to the small letters, changes nothing else, and is idempotent |
| FilterEvents.GetEventsByTransaction | src/blockchains/erc20/lib/fetch_events.ts:318-345 | the generator yields the runs of equal hashes of the events that have one, the first event cut off if the list opens without hash |
| FilterEvents.GroupsAreTransactions | src/blockchains/erc20/lib/fetch_events.ts:318-345 | no event with a hash is lost, and the groups are the maximal equal-hash runs iff the list does not open with an event without hash inside a transaction |
| FilterEvents.RunsAreMaximal | src/blockchains/erc20/lib/fetch_events.ts:318-345 | runs concatenate to the list, hold one hash each, and neighbours differ |
| FilterEvents.MaximalRunsAreUnique | src/blockchains/erc20/lib/fetch_events.ts:318-345 | there is only one way to cut a list into maximal runs |
| FilterEvents.FilterTransactionEvents | src/blockchains/erc20/lib/fetch_events.ts:347-386 | the two passes over lists of mints and burns keep exactly the events that no mint or burn of the run repeats |
| FilterEvents.DroppedEventsAreRepeated | src/blockchains/erc20/lib/fetch_events.ts:347-386 | each dropped event is still told by a kept mint or burn, only repeated events are dropped, and no run is emptied |
| FilterEvents.FilterAllEvents | src/blockchains/erc20/lib/fetch_events.ts:307-316 | the loop over groups yields the filtered groups one after the other |
| FilterEvents.FilteringIsByTransaction | src/blockchains/erc20/lib/fetch_events.ts:307-386 | with each transaction's events adjacent, the result is the events with a hash that no mint or burn of their transaction repeats, in order |
| RepeatedTransfers.AbsentIff | src/blockchains/erc20/lib/fetch_events.ts:347-386 | in the fields of the transfers: an event of a run is left out iff it comes from the zero address and a mint of the run has its contract, amount and receiver, or it goes to but does not come from the zero address and a burn that is no mint has its contract, amount and sender |
| RepeatedTransfers.ExportedIff | src/blockchains/erc20/lib/fetch_events.ts:307-386 | with a transaction's events adjacent, an event is kept iff it has a hash and is not left out so within its transaction |
| RepeatedTransfers.NothingToldIsLost | src/blockchains/erc20/lib/fetch_events.ts:307-386 | conservation, for every list: what the kept events tell (transaction, contract, amount, giving holder, taking holder; the zero address and mint or burn being no holder) is exactly what the events with a hash tell |
| FilterEvents.FilteringIsIdempotent | src/blockchains/erc20/lib/fetch_events.ts:307-386 | filtering a second time changes nothing, provided the grouping is by transaction |
| FilterEvents.SecondPassAfterCut | src/blockchains/erc20/lib/fetch_events.ts:307-345 | when the first run is cut, a second pass changes something iff the cut-off event and a kept event of the rest of its run repeat one another |
| ChunkedFetch.UnlimitedSplit | src/blockchains/erc20/erc20_worker.ts:252-278 | cutting a range between two blocks does not change what is exported |
| ChunkedFetch.GatherIsOneQuery | src/blockchains/erc20/erc20_worker.ts:272-277 | whichever way a range is cut, the chunks together yield the result of one unlimited query, with the constant transfers once and behind their block |
| ChunkedFetch.ChunkedFetchIsOneQuery | src/blockchains/erc20/erc20_worker.ts:252-278 | for any number of connections and any rejections the concurrent fetch, decoded, filtered and with the constant transfers, equals one unlimited query with the constant transfers once and behind their block, or fails: with an error the node gave, or because the blocks returned for the timestamps are not as many as asked for or lack one that has a log |
| ChunkedFetch.FetchOfBlock | src/blockchains/erc20/erc20_worker.ts:252-278 | of each block a fetched range holds, in order, what fetching the block alone returns, and nothing of other blocks |
| ChunkedFetch.IntervalsDoNotMatter | src/blockchains/erc20/erc20_worker.ts:252-278 | fetching a range in one call or two, with any connection limits, gives the same events of each block in the same order, and the same list where no constant transfers are asked for |
| FetchedTransfers.FetchedTellALog | src/blockchains/erc20/lib/fetch_events.ts:220-235 | each transfer of a fetch has the parties, amount and place of a log of its block whose address the contract filter lists in some spelling, or is a constant transfer |
| FetchedTransfers.LogsAreTold | src/blockchains/erc20/lib/fetch_events.ts:220-235 | each log of the range that the filter lets through and that tells a transfer is told by a transfer of the fetch, whatever the chunks and rejections |
| FetchedTransfers.LowerIffSameLetters | src/blockchains/erc20/lib/fetch_events.ts:246-250 | two addresses agree in lower case iff they differ in capitals only |
| FetchedTransfers.FetchInChunks | src/blockchains/erc20/erc20_worker.ts:252-278 | a fetch of a range gathers between 1 and MAX_CONNECTION_CONCURRENCY queries whose ranges cut the whole |
| FetchedTransfers.FetchFailsIff | src/blockchains/erc20/lib/timestamps_cache.ts:38-80 | with a node that answers all log queries a fetch fails iff the blocks for the timestamps are missing, are not as many as the range has, or lack the block of a log that tells a transfer |
| Chunks.BuildInclusiveChunks | src/blockchains/erc20/lib/chunk_utils.ts:1-17 | the loop yields the chunks of the specification, and fails exactly for a size below 1 |
| Chunks.ChunksPartition | src/blockchains/erc20/lib/chunk_utils.ts:1-17 | chunks enumerate the range in order, none empty, none too big |
| Chunks.ChunksCount | src/blockchains/erc20/lib/chunk_utils.ts:10-14 | k chunks suffice iff the range has at most k times the size |
| Chunks.AtMostConcurrencyChunks | src/blockchains/erc20/erc20_worker.ts:266-270 | with the size the callers compute there are at least one and at most min(concurrency, total) chunks |
| StableSorting.StableSort | src/blockchains/erc20/lib/util.js:8-22 | the array is sorted in place into its stable arrangement |
| StableSorting.TaggedSortIsStable | src/blockchains/erc20/lib/util.js:8-22 | any sorted permutation of the tagged elements is, untagged, the stable arrangement |
| StableSorting.StrictOrderIsUnique | src/blockchains/erc20/lib/util.js:11-19 | without ties there is only one sorted arrangement |
| StableSorting.FilterStableSorted | src/blockchains/erc20/lib/util.js:8-22 | selecting and sorting commute |
| ContractOverwrites.MadeOverwriteIsComplete | src/blockchains/erc20/lib/contract_overwrite.ts:15-37 | every old address has a multiplier, so editing a matching event never throws |
| ContractOverwrites.ChangeContractAddresses | src/blockchains/erc20/lib/contract_overwrite.ts:42-51 | events are changed in place by the first matching overwrite, the others not at all |
| ContractOverwrites.ChangedByFirst | src/blockchains/erc20/lib/contract_overwrite.ts:42-51 | the first overwrite that lists the contract decides |
| ContractOverwrites.ChangedKeepsPlace | src/blockchains/erc20/lib/contract_overwrite.ts:56-77 | only contract and amount change |
| ContractOverwrites.ExtractChangedContractAddresses | src/blockchains/erc20/lib/contract_overwrite.ts:82-100 | the result is the changed copies of exactly the matching events, in their order |
| OverwrittenAmounts.ChangedByConfiguration | src/blockchains/erc20/lib/contract_overwrite.ts:15-77 | a transfer whose contract the configuration names gets the new address of the first entry that names it, in lower case, and its amount scaled by the multiplier of that entry's last old contract of that address; nothing else changes |
| OverwrittenAmounts.RenamedIffNamed | src/blockchains/erc20/lib/contract_overwrite.ts:42-51 | a transfer is renamed so iff the configuration names its contract in some spelling, and otherwise stays as it is |
| OverwrittenAmounts.CopiesAreRenamed | src/blockchains/erc20/lib/contract_overwrite.ts:82-100 | appended copy k is the k-th named transfer, renamed so |
| EventKeys.TransactionOrderOrders | src/blockchains/erc20/lib/extend_events_key.ts:8-24 | the comparator is a total preorder |
| EventKeys.PrimaryKeyOrderOrders | src/blockchains/erc20/lib/extend_events_key.ts:26-47 | the extended comparator is a total preorder |
| EventKeys.ExtendEventsWithPrimaryKey | src/blockchains/erc20/lib/extend_events_key.ts:55-93 | events are sorted and keyed in place, copies keyed in place behind the greatest log index of their block, and exactly the overflowing blocks are reported |
| EventKeys.KeyOverwritten | src/blockchains/erc20/lib/extend_events_key.ts:82-92 | the k-th copy of a block gets index max + 1 + k, whatever other blocks come between |
| EventKeys.MaxLogIsGreatest | src/blockchains/erc20/lib/extend_events_key.ts:65-71 | the remembered index is the greatest of the block's events, and there is one iff the block has events |
| EventBatches.KeysFitIffNoOverflow | src/blockchains/erc20/lib/extend_events_key.ts:49-93 | every key divided by the multiplier is its block iff no block overflows |
| EventBatches.KeysAreDistinct | src/blockchains/erc20/lib/extend_events_key.ts:51-93 | with distinct log indexes per block and no overflow, events and copies all get different keys |
| EventBatches.BatchIsComplete | src/blockchains/erc20/erc20_worker.ts:219-243 | the exported batch is a permutation of the keyed events and keyed copies |
| EventBatches.BatchKeysIdentifyRecords | src/blockchains/erc20/erc20_worker.ts:219-243 | in an exported batch no two records share a key, and a key tells its block |
| RecordOrder.BatchIsInOrder | src/blockchains/erc20/lib/extend_events_key.ts:10-47 | in the fields of the records: a batch has all its keys, and (block, transaction index, log index, key) never decreases |
| RecordOrder.BatchIsStrictlyInOrder | src/blockchains/erc20/lib/extend_events_key.ts:10-47 | it strictly increases when places are distinct and no block overflows |
| EventBatches.RecordsOfBlock | src/blockchains/erc20/lib/extend_events_key.ts:51-93 | the records of a block within a batch are those of exporting the block alone |
| EventBatches.ReexportRepeatsRecords | src/blockchains/erc20/lib/extend_events_key.ts:51-93 | two batches with the same events of a block export the same records with the same keys for it |
| ExportKeys.UnlimitedDistinct | src/blockchains/erc20/lib/fetch_events.ts:221-316 | when no two logs of a block have the same index, no two fetched transfers have the same block and index, whatever is decoded and dropped |
| ExportKeys.PlacesAreDistinct | src/blockchains/erc20/erc20_worker.ts:153-217 | nor have two events of an interval, constant transfers included, in any mode whose lists of contracts are apart |
| ExportKeys.RecordsHaveOwnKeys | src/blockchains/erc20/erc20_worker.ts:131-244 | then, unless a block overflows, the exported records of an interval have keys of their own, and a key tells the block |
| AppendedKeys.KeysDistinctIff | src/blockchains/erc20/lib/extend_events_key.ts:49-93 | with distinct log indexes per block, all below the multiplier, events and copies get different keys iff no copy has an index at or past the multiplier that some later block's record uses, less the multiplier for each block between |
| AppendedKeys.RecordsHaveOwnKeysIff | src/blockchains/erc20/erc20_worker.ts:207-244 | so with appended copies the records of an interval have keys of their own iff no copy runs into the key of a later block's record |
| AppendedKeys.AppendedKeysIdentifyIff | src/blockchains/erc20/erc20_worker.ts:207-244 | with appended copies, on every node with distinct log indexes below the multiplier the records of every interval have keys of their own iff no old address is in lower case, so that nothing is ever copied |
| CustomDistribution.AddTransfers | src/blockchains/erc20/lib/custom_token_distribution.ts:44-122 | the usable lines of the file are put behind the transfers in order, numbered on from the last log index of their block |
| CustomDistribution.AddCustomTokenDistribution | src/blockchains/erc20/lib/custom_token_distribution.ts:124-145 | they are, when the filter lists the contract and the range has the block, and otherwise nothing is |
| CustomDistribution.AddedPlaces | src/blockchains/erc20/lib/custom_token_distribution.ts:44-122 | there is one for each usable line, at consecutive indexes behind every fetched transfer of the block |
| AddedTransfers.AddedTellLines | src/blockchains/erc20/lib/custom_token_distribution.ts:60-124 | in the fields of the lines: added transfer k is that of the k-th line with an address, a sign and a positive amount; it mints the amount to the address when the sign is positive and burns it from there when it is negative, at the k-th index behind the block's last |
| ChunkedFetch.DistributionOfRange | src/blockchains/erc20/lib/custom_token_distribution.ts:124-145 | whatever range or chunk the block is fetched in, the same transfers are added |
| ExportKeys.KeysIdentifyIff | src/blockchains/erc20/erc20_worker.ts:131-244 | for a file with a usable line and fewer than 9999 lines, and without appended copies: on every node with distinct log indexes that leave room, the records of every interval have keys of their own iff, when contracts are exported under a new address, no contract is in both lists and the contract with the constant transfers is not in one list beside another |
| BlocksList.BreakdownInterval | src/lib/fetch_blocks_list.js:33-48 | the loop cuts a long interval every MAX blocks and leaves one of at most MAX + 1 whole |
| BlocksList.MakeIntervals | src/lib/fetch_blocks_list.js:54-72 | the loop yields the intervals of the specification |
| BlocksList.IntervalsCover | src/lib/fetch_blocks_list.js:33-72 | for any list the intervals enumerate exactly the list, in its order, in pieces of at most MAX + 1 |
| BlocksList.VisitedIntervals | src/blockchains/erc20/erc20_worker.ts:110-129 | for ascending blocks a fresh start has all intervals to visit, and the end of interval k leaves exactly those after it |
| Erc20Workers.ERC20Worker.GetBlocksListInterval | src/blockchains/erc20/erc20_worker.ts:110-129 | exported intervals are shifted off the list, and the first of the rest is returned if there is one |
| Erc20Workers.ERC20Worker.ExportList | src/blockchains/erc20/erc20_worker.ts:110-235 | going from returned end to returned end visits each remaining interval once, in order, and empties the list |
| Erc20Workers.ERC20Worker.Work | src/blockchains/erc20/erc20_worker.ts:131-244 | a call fails exactly when the worker is caught up and the node gives no head, or there is an interval to export and its fetch fails or a task for its balances throws; else, in each contract mode and for any order of balance requests and answers, it returns the keyed batch of the interval with its balances, moves the position to its end and remembers the greatest key; confirmed block, list and blacklist end as specified, and position and key stay when it fails or has nothing to do |
| Erc20Balances.RecordsButForBalances | src/blockchains/erc20/erc20_worker.ts:158-243 | but for their balances the records of a call are those of the interval, and so is the key it remembers, whatever the balances |
| Erc20Balances.RecordsCarryBalances | src/blockchains/erc20/erc20_worker.ts:158-243 | when balances are asked for, every record carries, for each eligible party of the fetched transfer it is made from, what the chain says at the block for the transfer's own contract, or a failure |
| RecordOrder.RecordsAreInOrder | src/blockchains/erc20/erc20_worker.ts:158-243 | the records of a work call are in that order, in every mode, with or without balances |
| BalanceSides.RecordSides | src/blockchains/erc20/erc20_worker.ts:156-243 | a record of a call that asks for balances has, for a party with forty hex digits and a valid checksum that is neither the zero address nor the transferred contract, the chain's balance or a failure, and for any other party none |
| BalanceSides.NoSidesUnasked | src/blockchains/erc20/erc20_worker.ts:156-243 | records have no balances when the setting is off or the interval does not start after the multicall contract's block |
| ListConfirmations.StaysConfirmedIff | src/blockchains/erc20/erc20_worker.ts:110-145 | with a list of blocks, as long as the node offers no newer confirmed block, every exported interval ends at most at it iff it lies inside none of the intervals left, nor between one and the end of the interval before |
| ListConfirmations.NeverEarlyIff | src/blockchains/erc20/erc20_worker.ts:110-145 | whatever the node offers at each call, every exported interval ends at most at the confirmed block iff each ends at most where a confirmed block that rises by one only when the worker is caught up already is |
| ListConfirmations.TenBlocksAtFive | src/blockchains/erc20/erc20_worker.ts:110-145 | an instance: at confirmed block 5 a fresh worker exports blocks 1 to 10 at once |
| CatchingUp.VisitsCatchUp | src/blockchains/eth/lib/next_interval_calculator.ts:50-55 | from position p with confirmed block c and no newer one, the calls of the ERC20 worker export the intervals of BLOCK_INTERVAL blocks from p + 1 to c in order, the last one cut at c: as many as there are calls, and at most ceil((c - p) / BLOCK_INTERVAL) |
| Erc20Workers.KeyAndMerge | src/blockchains/erc20/erc20_worker.ts:219-243 | keying, finding the greatest key and merging the copies give the specified batch |
| Erc20Workers.BlockExportIsStable | src/blockchains/erc20/erc20_worker.ts:131-278 | whatever interval a block is exported in, with any connections, chunks and split queries, its records and keys are those of exporting the block alone, and there are none of other blocks |
| Erc20Protocol.RangeIsItsBlocks | src/blockchains/erc20/erc20_worker.ts:131-244 | the batch of an interval is the batches of its blocks, one after the other |
| Erc20Protocol.WorkerExportsTheInterval | src/blockchains/erc20/erc20_worker.ts:131-244 | what a call returns for an interval is, record by record, what the protocol exports for it |
| Erc20Protocol.NoRecordIsMissing | src/main.ts:97-117 | over every run of the exporter with this worker each record of the blocks past the start up to the saved position is in Kafka, and what is in Kafka is a record of a block that a reported head confirmed |
| Erc20Protocol.InvertedIntervalIsEmpty | src/blockchains/erc20/erc20_worker.ts:252-260 | an interval that ends before it starts neither fails nor yields anything, so the position goes back to its end |
| BalanceUtils.KeysDiffer | src/blockchains/erc20/lib/balance_utils.ts:21-28 | two address-contract pairs with the same key are the same pair |
| BalanceUtils.AddressContractStore.Add | src/blockchains/erc20/lib/balance_utils.ts:42-75 | a pair is added unless an equal one is there |
| BalanceUtils.IdentifyAddresses | src/blockchains/erc20/lib/add_balances.ts:231-245 | each block gets exactly the eligible pairs of its transfers, in order of first appearance |
| BalanceUtils.BreakNeededBalancesPerBatch | src/blockchains/erc20/lib/balance_utils.ts:30-36 | the needed pairs are cut into slices of the batch size, the last one shorter |
| BalanceUtils.RequestedOnce | src/blockchains/erc20/lib/add_balances.ts:293-305 | a pair is requested at a block once if a transfer of that block needs it, and not otherwise |
| BalanceSides.RequestedIff | src/blockchains/erc20/lib/balance_utils.ts:12-40 | in terms of addresses: the balance of (address, contract) is requested at a block once iff a transfer of that contract in the block has the address as a party, and the address has forty hex digits and a valid checksum and is neither the zero address nor the contract; else it is not requested |
| BalanceSides.TasksOfCall | src/blockchains/erc20/lib/add_balances.ts:250-287 | a work call asks for a list's balances in at most MAX_CONNECTION_CONCURRENCY tasks, in batches that are not empty and hold at most MULTICALL_BATCH_SIZE pairs |
| BalanceSides.NamesHoldNothing | src/blockchains/erc20/lib/balance_utils.ts:38-40 | mint, burn, freeze, the zero address and the contract itself never get a balance |
| MulticallBlacklists.MulticallBlacklist.RecordAllFailed | src/blockchains/erc20/lib/multicall_blacklist.ts:19-28 | the count of one contract grows by one, all others stay |
| MulticallBlacklists.MulticallBlacklist.RecordCleanResult | src/blockchains/erc20/lib/multicall_blacklist.ts:30-33 | the count of one contract is forgotten, all others stay |
| MulticallBlacklists.BlacklistedIff | src/blockchains/erc20/lib/multicall_blacklist.ts:11-38 | a contract is blacklisted iff its last threshold recorded outcomes are all failures |
| AddBalances.MovesKeep | src/blockchains/erc20/lib/add_balances.ts:84-271 | for every interleaving of the tasks, also of those that run on after another threw, each task's results answer exactly the batches it has finished, with the chain's balance or a failure |
| AddBalances.MovesEnd | src/blockchains/erc20/lib/add_balances.ts:210-228 | each move uses up work, so every schedule ends |
| AddBalances.MovesGoOn | src/blockchains/erc20/lib/add_balances.ts:210-228 | there is a next move iff some task is neither done nor threw |
| AddBalances.RunToTheEnd | src/blockchains/erc20/lib/add_balances.ts:210-228 | every run can be taken to where each task is done or threw |
| BalanceAnswers.StopsIff | src/blockchains/erc20/lib/add_balances.ts:247-287 | no move is left iff each task has asked for everything or threw; then all are done or some task threw |
| BlacklistUse.SplitPerBlacklist | src/blockchains/erc20/lib/add_balances.ts:150-170 | pairs of blacklisted contracts are answered as failures, the others requested, both in order |
| BlacklistUse.ComputeContractStats | src/blockchains/erc20/lib/add_balances.ts:57-73 | failed and total answers are counted per contract, contracts in order of first appearance |
| BlacklistUse.RecordBlacklistSignals | src/blockchains/erc20/lib/add_balances.ts:198-208 | the blacklist learns, per contract, whether every answer failed |
| BlacklistUse.FailedIsTotalIff | src/blockchains/erc20/lib/add_balances.ts:198-208 | failed equals total iff every answer for the contract is a failure |
| BlacklistUse.GetBalancesPerBlock | src/blockchains/erc20/lib/add_balances.ts:210-228 | pairs of blacklisted contracts fail at once, the others get the decoded answers in order, and the shared blacklist learns the outcome per contract; a request that fails changes nothing, and nothing is requested when all are blacklisted |
| BalanceAnswers.BatchIff | src/blockchains/erc20/lib/add_balances.ts:139-148 | a batch request counts iff it is answered with as many elements as pairs; each element then tells its pair's balance, a reverted or undecodable one a failure |
| BalanceAnswers.SinglesIff | src/blockchains/erc20/lib/add_balances.ts:84-137 | requests pair by pair throw iff there are some and all are rejected, or one is answered with other than one element; else each tells its pair's balance, a rejected one a failure |
| BalanceAnswers.RequestIsARun | src/blockchains/erc20/lib/add_balances.ts:210-228 | the method that asks for one batch refines the moves: its balances, its error and what it leaves in the blacklist are those of the run of a task alone with the batch |
| BlacklistUse.FinishTakesOffIff | src/blockchains/erc20/lib/add_balances.ts:198-228 | an answer takes a blacklisted contract off iff one of the requested pairs of it got an amount |
| BlacklistUse.MoveTakesOffIff | src/blockchains/erc20/lib/add_balances.ts:172-228 | a move of the tasks takes a blacklisted contract off iff it is an answer that decodes to an amount for a pair of it |
| BlacklistUse.UnaskedStaysListed | src/blockchains/erc20/lib/multicall_blacklist.ts:8-9 | a blacklisted contract that no request under way asks about stays blacklisted over any run, however requests overlap |
| BlacklistUse.CanLeaveIffAsked | src/blockchains/erc20/lib/multicall_blacklist.ts:8-9 | some run takes a blacklisted contract off iff a request under way asks about it |
| BlacklistUse.LeavesOnlyByRequestInFlight | src/blockchains/erc20/lib/add_balances.ts:210-228 | a contract leaves the blacklist only by the answer to a request about it that was already under way and holds an amount for it |
| BlacklistUse.ListedStaysWithoutOverlap | src/blockchains/erc20/lib/multicall_blacklist.ts:8-9 | what a run without overlapping requests has blacklisted stays blacklisted over any run that follows, with any overlap |
| BlacklistOverlap.TwoTasks | src/blockchains/erc20/lib/add_balances.ts:247-305 | two transfers of different blocks whose senders alone need balances are asked for by two tasks at once, with two connections and batches of one |
| BlacklistOverlap.OverlapTakesOff | src/blockchains/erc20/lib/add_balances.ts:210-228 | of any two such transfers of one contract, a reverted answer to the first blacklists the contract and a decoded answer to the second takes it off |
| Enrichment.EveryBalanceResolved | src/blockchains/erc20/lib/add_balances.ts:247-320 | for any interleaving, batch size, connections and blacklist, once no task threw and all are done every balance a transfer needs is resolved, to the chain's value or a failure |
| Enrichment.ResolvedAmongOthers | src/blockchains/erc20/erc20_worker.ts:158-206 | so it is when other enrichments use the same blacklist at the same time, as soon as the tasks of the one are done |
| Enrichment.BothListsResolved | src/blockchains/erc20/erc20_worker.ts:158-206 | with two lists enriched at once over one blacklist each gets every balance its transfers need from its own tasks |
| Balancing.BothFilledRightly | src/blockchains/erc20/lib/add_balances.ts:289-320 | for any schedule in which no task threw, both lists of a call are filled with the chain's balances or failures for exactly the eligible parties |
| Enrichment.AgreesWithNaiveLookup | src/blockchains/erc20/lib/add_balances.ts:247-320 | without blacklist and failures the resolved balance is the chain's for the transfer's block, address and contract |
| Enrichment.AssignBalances | src/blockchains/erc20/lib/add_balances.ts:309-319 | both sides are written in place from the map if eligible, and an eligible side without balance is an error |
| Enrichment.ExtendTransfersWithBalances | src/blockchains/erc20/lib/add_balances.ts:289-320 | for any schedule that runs to its end it fails only when a task threw, and otherwise every eligible side of every transfer gets its balance |
| BalanceSides.SidesAfter | src/blockchains/erc20/lib/add_balances.ts:307-320 | what the enrichment promises of a transfer, in terms of addresses: a side gets the chain's balance of its own address or a failure if the address can hold the token, and stays as it was otherwise |
| BeaconDays.DaySlotIsGreatest | src/blockchains/eth_beacon/eth_beacon_worker.ts:101-107 | from the genesis day on, the day's slot is the greatest multiple of 32 within the day's end, and its timestamp is of that day |
| BeaconDays.RemainderIs | src/blockchains/eth_beacon/eth_beacon_worker.ts:101-107 | the remainder taken off the slot truncates towards zero, for negative slots as well |
| BeaconDays.DaySlotIsZeroIff | src/blockchains/eth_beacon/eth_beacon_worker.ts:101-107 | the day's slot is 0 iff the day is the genesis day and less than 384 seconds of it are left |
| BeaconDays.DaysAreConsecutive | src/blockchains/eth_beacon/eth_beacon_worker.ts:162-184 | days are visited one after the other without skip or repeat, if the first has a slot other than 0 |
| BeaconDays.ShortGenesisDayRepeats | src/blockchains/eth_beacon/eth_beacon_worker.ts:162-184 | with less than 384 seconds of the genesis day left it comes again for ever |
| BeaconDays.DefaultStartSkipsGenesisDay | src/blockchains/eth_beacon/eth_beacon_worker.ts:167-173 | from position -1 the first day is the one after genesis, unless genesis is within 12 seconds of midnight |
| BeaconBalances.Validators.DetectBalanceChanges | src/blockchains/eth_beacon/eth_beacon_worker.ts:15-51 | the loop returns the change records of the snapshot and updates the known balances in place |
| BeaconBalances.Validators.PreloadLastBalances | src/blockchains/eth_beacon/eth_beacon_worker.ts:109-126 | the positive balances of a snapshot are entered in place |
| BeaconBalances.ReplayOfDays | src/blockchains/eth_beacon/eth_beacon_worker.ts:15-51 | replaying the records of any days reproduces the known balances |
| BeaconBalances.RecordsAddUp | src/blockchains/eth_beacon/eth_beacon_worker.ts:34-41 | new minus old balances of a validator's records sum to its difference over the snapshot |
| BeaconBalances.SnapshotDeterminesState | src/blockchains/eth_beacon/eth_beacon_worker.ts:15-126 | a snapshot that lists each known validator once leaves exactly its nonzero balances, as preloading it would |
| BeaconBalances.RestartRepeatsNothing | src/blockchains/eth_beacon/eth_beacon_worker.ts:109-126 | restarted after any day and preloaded at its slot, the worker exports the same later records but for the time of the old balance |
| BeaconBalances.SecondLookFindsNothing | src/blockchains/eth_beacon/eth_beacon_worker.ts:15-51 | the same snapshot again yields no change |
| BeaconRecords.RecordsAreOfTheDay | src/blockchains/eth_beacon/eth_beacon_worker.ts:34-41 | every record carries the slot and the time of its snapshot |
| BeaconRecords.RecordsOfSnapshot | src/blockchains/eth_beacon/eth_beacon_worker.ts:15-51 | a snapshot without repeats gives a validator exactly one record if its balance is not the known one and none otherwise; the record has the new balance, and the known balance and time, or 0 and none if it was unknown |
| BeaconRecords.DaysLinkUp | src/blockchains/eth_beacon/eth_beacon_worker.ts:27-48 | over any days a record's old balance and old time are the balance and time of the validator's previous record, and 0 and none if there is none or it left nothing |
| BeaconWorkers.BeaconWorker.Work | src/blockchains/eth_beacon/eth_beacon_worker.ts:128-208 | a call on the object takes its fields from one state of the specification to the next, for all answers and failures of the node |
| BeaconWorkers.DayOfManyBatches | src/blockchains/eth_beacon/eth_beacon_worker.ts:128-208 | a day of more than MAX changes takes exactly ceil(n/MAX) calls that return non-empty batches of at most MAX, together the changes in order; only the last moves position and key, to the slot and by n |
| BeaconWorkers.DayOfOneBatchNeverEnds | src/blockchains/eth_beacon/eth_beacon_worker.ts:129-150 | a day of at most MAX changes is exported by its first call, and no number of later calls moves position or key |
| BeaconWorkers.WorkKeepsPositive | src/blockchains/eth_beacon/eth_beacon_worker.ts:43-47 | the worker never remembers a balance of zero |
| BeaconRecords.CallsLinkUp | src/blockchains/eth_beacon/eth_beacon_worker.ts:128-208 | over any work calls and answers the records returned and waiting link up so, replay to the worker's state, and have the time genesis + 12 x slot of their slot |
| BeaconRestart.WorkAlike | src/blockchains/eth_beacon/eth_beacon_worker.ts:128-208 | given the same answers, two workers that differ only in when they saw the balances return the same but for old timestamps, and stay alike |
| BeaconRestart.DayEndsBetweenDays | src/blockchains/eth_beacon/eth_beacon_worker.ts:132-147 | the last call of a day with several batches leaves the worker ready for the next day, knowing the day's balances |
| BeaconRestart.CrashWithinDayRepeatsIt | src/blockchains/eth_beacon/eth_beacon_worker.ts:128-157 | a process that stops after any number of a day's batches but the last is followed by one that returns all batches of the day again, from the first, and then what the old one would have, but for old timestamps |
| BeaconRestart.RestartContinues | src/blockchains/eth_beacon/eth_beacon_worker.ts:152-157 | a process restarted at the saved position returns, call by call and for any answers, what the old one would have returned but for old timestamps |
| EthOrder.TransactionOrderOrders | src/blockchains/eth/lib/util.ts:8-24 | the comparator is a total preorder |
| EthOrder.MergeSortedArrays | src/blockchains/eth/lib/util.ts:108-122 | the two-index loop yields the specified merge |
| EthOrder.MergePermutes | src/blockchains/eth/lib/util.ts:108-122 | merging loses and doubles nothing |
| EthOrder.MergeSorts | src/blockchains/eth/lib/util.ts:108-122 | merging sorted lists gives a sorted list |
| EthOrder.AssignInternalTransactionPosition | src/blockchains/eth/lib/util.ts:26-37 | each transfer gets in place its rank among those of its block and transaction, whatever the order of the groups |
| EthOrder.InternalPositionsCount | src/blockchains/eth/lib/util.ts:28-37 | the internal positions of a transaction's transfers are 0, 1, 2 and so on, in order |
| EthOrder.BatchIsComplete | src/blockchains/eth/eth_worker.ts:121-142 | what is merged is a permutation of the transfers and one mark per block, sorted |
| EthOrder.BatchIsOrdered | src/blockchains/eth/eth_worker.ts:121-142 | block, transaction position and internal position strictly increase over the batch, each mark is last in its block, and each block of the range has one |
| EthOrder.InvertedRangeThrows | src/blockchains/eth/lib/end_of_block.ts:20-40 | a range that ends two or more blocks before its start has no marks but an error, and one that ends just before it has none, so no call moves the position back |
| EthOrder.MarksIff | src/blockchains/eth/lib/end_of_block.ts:21-40 | end-of-block marks are made iff the range is no worse than empty and each of its blocks was fetched; there is one mark per block, in order, of value 0 at position 2^31 - 1 |
| EthOrder.NextCallReusesKeys | src/blockchains/eth/eth_worker.ts:135-138 | keys are consecutive within a call, and the last one lies hi - lo above the first key of the next call |
| EthQuality.AssertTransfersWithinBlock | src/blockchains/eth/lib/util.ts:66-78 | the scan passes iff positions start at 0 or 1 and rise by 0 or 1 |
| EthQuality.NoPositionMissing | src/blockchains/eth/lib/util.ts:66-78 | between the first and last position of a passing block none is missing |
| EthQuality.AssertBlocksMatch | src/blockchains/eth/lib/util.ts:39-63 | the check passes iff each block of the range is present or confirmed empty and there are no more blocks than the range has |
| EthQuality.CheckETHTransfersQuality | src/blockchains/eth/lib/util.ts:93-106 | the check passes iff the range is not inverted, its blocks are accounted for, and each present block steps up |
| EthQuality.AdmitsOnlyRangeIff | src/blockchains/eth/lib/util.ts:39-63 | that every list which passes lies within the range holds iff the second node confirms no block of the range as empty |
| EthQuality.NothingOutside | src/blockchains/eth/lib/util.ts:59-62 | when every block of the range is present no transfer of a passing list lies outside it |
| EthQuality.OutsideBlockPasses | src/blockchains/eth/lib/util.ts:39-63 | for any range and any empty block in it a list with a transfer behind the range passes |
| EthQuality.EthWorker.Export | src/blockchains/eth/eth_worker.ts:121-142 | a call succeeds iff the check passes and the marks can be made, and then returns the ordered, positioned and keyed batch and moves position and key |
| CardanoBlocks.DiscardNotCompletedBlock | src/blockchains/cardano/lib/util.js:7-28 | the backward scan drops the last block iff it is incomplete, and fails iff nothing would be left |
| CardanoBlocks.VerifyAllBlocksComplete | src/blockchains/cardano/lib/util.js:41-58 | the forward scan passes iff every maximal run of one block has the length its last transaction states |
| CardanoBlocks.DiscardLeavesWholeBlocks | src/blockchains/cardano/lib/util.js:7-58 | of any prefix of an interval, what is left passes the check and is all transactions up to the block of the last of them |
| CardanoWorkers.SetBlockZeroForGenesisTransfers | src/blockchains/cardano/cardano_worker.ts:105-113 | genesis transactions get block 0, and a numbered one is an error |
| CardanoWorkers.GetGenesisTransactions | src/blockchains/cardano/cardano_worker.ts:87-101 | pages of any sizes add up to the genesis transactions |
| CardanoWorkers.CardanoWorker.Work | src/blockchains/cardano/cardano_worker.ts:183-234 | a call on the object takes its fields from one state of the specification to the next, for all answers and failures of the node |
| CardanoWorkers.StepKeeps | src/blockchains/cardano/cardano_worker.ts:183-234 | a call keeps the export exact, and unless it waits for the node strictly raises the position |
| CardanoWorkers.RunIsExact | src/blockchains/cardano/cardano_worker.ts:183-234 | over any run without a thrown error, wherever answers break off, the export is the chain's transactions up to the position, whole blocks only, with consecutive keys |
| CardanoWorkers.ThrowsOnlyOnPartOfOneBlock | src/blockchains/cardano/lib/util.js:7-28 | an honest answer makes a call throw iff it holds nothing but a part of one block |

## Left out

- Network clients, HTTP server, metrics, logging, request counting, configuration parsing and sleep times: no invariant to prove.
- Real Kafka and Zookeeper: only atomic commit and abort, and a position register, with crashes between steps.
- Last exported key and time in the saved position: the protocol model carries the block only.
- The order in which concurrent ERC20 chunks fail: `Promise.all` rejects with the first failure in time, the model with the first in order of chunks.
- FetchEvents.DecodedKinds: amounts are numbers already; parsing of hex data and its exceptions are not modelled.
- CustomDistribution.AddTransfers: the file is taken as already read and cut into lines; an absent transaction index is the -1 that the comparators take for it; the table has one entry, as in the code.
- Erc20Workers.ERC20Worker.Export: when the fetch of one list fails, requests for the balances of the other may already have fed the blacklist; the model leaves it as it was. The call throws either way.
- ChunkedFetch.ChunkedFetchIsOneQuery: the blocks returned for the timestamps decide whether a fetch fails; the timestamps themselves are not carried by the transfers.
- ContractOverwrites.ChangeContractAddresses: how BigNumber scales and rounds an amount is a parameter.
- BalanceUtils.IdentifyAddresses: the address checksum is a parameter; shape, zero address and own contract are modelled.
- EventKeys.ExtendEventsWithPrimaryKey: lists are arrays of values, so two lists that share an event object are not modelled; the worker never writes to an event after it is shared.
- CardanoWorkers.CardanoWorker.Work: retries of a request are one request that may fail; a block number of null counts as 0, as it does in the arithmetic of the code.
- EthQuality.EthWorker.Export: decoding of traces, fees, withdrawals, genesis and DAO transfers, which only supply the list of events.
- BeaconWorkers.BeaconWorker.Work: balances are natural numbers; `Number` on malformed strings is not modelled.
- Loading the block list: the list is taken as already loaded.
- XRP, ICP, ICRC, UTXO, Matic, receipts and contract-creation workers: variants of the same loop, or format mapping.

# Ocean Node: the indexer, its stores, and the guards around them

Ocean Node indexes the asset (DDO) events of a chain into a document store that is split
over several collections, and answers requests about those assets. This project models the
logic between the I/O calls in Dafny and proves what it keeps over whole runs. `dafny verify
dfyconfig.toml` checks everything.

What the program cannot control (network heights, log fetches, database failures, clocks,
peers' answers, decrypted documents, receipts) is an input of the model, chosen freely by
every theorem unless its `requires` says otherwise.

| file | component |
|---|---|
| `Documents.dfy`, `DdoDatabase.dfy` | DDO documents, the patch a database applies, and the sharded DDO store |
| `OrderDatabase.dfy`, `Processors.dfy` | the order store, and what each chain log does to the two stores |
| `OrderRuns.dfy`, `StateRuns.dfy`, `Origins.dfy` | runs of order events, runs of NFT state events, where the records come from |
| `ChainLogs.dfy`, `Crawler.dfy`, `CrawlerRuns.dfy` | the crawl loop: windows, chunk size, commits, resets |
| `Redelivery.dfy`, `RedeliveredWindows.dfy`, `RedeliverySchedules.dfy` | processing a window again after a failed commit |
| `ExactlyOnce.dfy`, `PassedBlocks.dfy` | whole runs with failing commits and failing fetches |
| `Strings.dfy`, `Queries.dfy`, `QueryRoundTrip.dfy`, `SingleClauses.dfy`, `QueryMeaning.dfy` | translation between the two query dialects |
| `RateLimiter.dfy`, `Nonces.dfy` | the per-caller rate limiter, nonces |
| `ComputeFees.dfy`, `FeeProtocol.dfy` | provider fees: initialize, order, startCompute |
| `FindDdo.dfy`, `TypesenseApi.dfy` | asking peers for a DDO, choosing and retrying database nodes |
| `Options.dfy`, `Arithmetic.dfy` | absent values, minima |

## Main results

- **Metadata is processed exactly once, however often commits fail**, for DIDs whose events can
  be redelivered. `MetadataIsProcessedExactlyOnce`: the crawl loop starts a window over whenever
  its commit failed, so logs are processed again, in windows of changing length. Once everything
  delivered is committed, the DDO store equals one pass over the blocks. Every DID must be
  `Ready`: registered and active from an older block, or without an active document and with a
  safe schedule (below), or without events in the blocks.
- **Exactly which failing fetches lose updates.** `EndsAsOnePassIffNothingPassed`: with failing
  fetches as well, once everything fetched has been committed, the DDO store equals one pass over
  the blocks that some window fetched, whatever the chain and the store hold, if and only if no fetched block was passed by a failed
  window after a shorter window had been fetched in between. `PassedUpdateIsLost` gives four
  rounds that do pass blocks.
- **Exactly which schedules of events survive redelivery.** `HarmlessIffSafe`: for a DID without
  an active document, delivering a window twice ends as delivering it once, for every content of
  the events, if and only if (1) no update's block precedes a creation's, unless the store has the
  DID inactive and knows its event, so that an update can wake it too, and (2) no update that
  shares the creation's block, but not its transaction, is followed by an update in a later block.
  (Where an update can wake the DID, (2) is about updates that come after the creation in the
  block.) Otherwise the second pass saves an update that the first one skipped
  (`EarlyUpdateHarms`, `SharedBlockHarms`). Events that the node cannot decode do not count, nor
  do updates of the creation's own transaction: they bring its document again (`LeadIsWaking`).
- **The chunk size does not matter** (`ChunkSizeIndependence`), **committed windows partition
  the chain** under any fetch, commit and handler failures, from reset to reset (`WindowsTile`,
  `TilesPartition`), the position never passes the height (`HeightBoundsPosition`),
  and the loop makes progress (`ReachesHeight`, `ReachesHeightByChunks`).
- **Failing handlers**: under any failures the stores are one fold over the windows' logs, each
  window cut at its throw (`RunIsOneFold`), and `NeverHandledIff` says exactly which logs behind
  the position were never processed.
- **What is stored was said by an event.** In every run from empty stores each order record and
  each document is that of an event of the run, field by field (`RecordsComeFromEvents`,
  `ConsumersComeFromStarts`, `DocumentsComeFromEvents`).
- **The sharded store is one map** (`UpdateRefinesMap`, `DeleteRefinesMap`,
  `ClearChainRefinesMap`, `RetrieveFinds`), `SaveMeans` says what a save does to every field, and `create` keeps it one exactly when
  `CreateKeepsSoundnessIff` says so.
- **Queries** survive the round trip (`FilterRoundTrip`, exact for single clauses in
  `TermRoundTripIff`, `NegativeTermRoundTripIff` and `ListRoundTripIff`), and translation
  preserves their meaning for every document (`ToFilterPreservesMeaning`,
  `ToBoolPreservesMeaning`). A negative filter keeps its meaning
  exactly if its value is no list (`NegativeKeepsMeaningIff`).
- **At most 2 * max(1, R) - 1 admissions in any second** (`RateBound`), a bound that is reached
  (`RateBoundIsReached`).
- **Issued fees are accepted later**, no other provider's are (`ValidIff`, `PaysIffPaid`), and `ComputeFeeIsChargedIff` says exactly when the job is
  charged to the compute fee that was issued for it.

## What turned out not to hold as one would expect

- Redelivery is not always harmless, and failing fetches can set a document back; see above.
- `lastIndexedBlock` can go down. A failed read of it looks like "never indexed", so crawling
  starts over and commits its first window (`LastIndexedDecreasesIff`, `FailedReadGoesBack`).
- The blocks never fetched are not just those of committed windows whose `getLogs` failed: an
  earlier attempt that was not committed may have fetched them (`NeverFetchedIff`,
  `FetchedYetCommittedWindowFailed`).
- A reset that would go back to block zero never takes place, because zero is falsy
  (`ResetStartsOver`).
- An OrderStarted event of another datatoken than the named service's sets `stats.orders` back
  to one (`OrdersConservedIff`, `ResetLosesOrders`).
- Deprecating or revoking an active DDO is final as far as state events go: its stored form has
  no version, so no schema takes it back as active (`StrippedForGood`).
- `startCompute` may charge the job to an older order of an earlier asset whose compute fee is
  too short for the request, because it asks for no least duration (`ShortKeptOrderIsCharged`).
- The Elasticsearch parser takes a negative list for one value: it goes wrong exactly on the
  documents whose field has one of the listed values or the text of the list
  (`NegativePartMeansIff`, with `NegativeListIsMisread` as the shortest case).
- Order events are not processed exactly once: a redelivered window counts them again
  (`RedeliveredOrdersCountAgain`), while the records stay if every reuse comes after its start.

## Where the code and its comments differ

The model follows the code. `isUpdateable` reports "updated later" but refuses only the same
transaction or the same block (src/components/Indexer/processor.ts:522-540). The list of
providers is said to be cut to five; the cut list is dropped and the loop bound does the work
(src/components/core/handler/ddoHandler.ts:615-618).

## Modelling choices

- A document keeps the fields the program reads as fields, and the rest as a map from leaf path to
  value. A PATCH replaces the leaves it names and keeps the others, which is what both databases do
  with nested objects as long as a path keeps its shape: no path is a leaf in one document and an
  object in another.
- `Config.engine` selects between the two DDO stores. Their code differs in one point: Typesense
  inserts a new document, Elasticsearch indexes it and so overwrites one with the same id.
- A metadata log carries the document after decryption, hash, factory, policy and purgatory checks
  and with chain id, NFT address and NFT info filled in, or none if one of them turned it away. The
  document belongs to the log: a log delivered again is taken to give the same one, with the same
  block time, although the NFT info is read from the current chain state and the lookup of the block
  may time out (src/components/Indexer/processor.ts:66-88, 433-446).
- `getEventData` decodes the first log of the transaction's receipt for every event of it
  (src/components/Indexer/processor.ts:52-64). A metadata log is `decodable` if that first log is a
  metadata event; otherwise it carries no document. `RedeliveredWindows.Decoded` lets the metadata
  logs of one transaction carry one document, so it belongs to at most one DID. It need not be the
  DID of the first log: only the document's id is compared, and with the DID of the log in hand
  (src/components/Indexer/processor.ts:344), so an update behind another NFT's counts
  (`AnotherNftMayOpen`). The policy server is asked about creations and updates apart, and may let
  one of a transaction pass and not the other.
- `Crawlers.Settings.start` is the crawling start block; a deployed block is assumed to be known.
- The order store is the Typesense one, which never overwrites a record.

## Model

| member | source | states |
|---|---|---|
| Documents.PatchIsIdempotent | src/components/database/TypenseDatabase.ts:535-538 | patching twice with one document is patching once |
| Documents.PatchIsAssociative | src/components/database/TypenseDatabase.ts:535-538 | two patches in a row are one patch, for documents whose paths keep their shape |
| Documents.PatchAllTwice | src/components/database/TypenseDatabase.ts:535-538 | a list of patches sent a second time changes nothing, on any stored document |
| DdoDatabases.RetrieveFinds | src/components/database/TypenseDatabase.ts:493-525 | retrieve finds a document wherever it lies, in any order of the schemas |
| DdoDatabases.RetrieveWellPlaced | src/components/database/TypenseDatabase.ts:371-387 | what retrieve finds lies in the collection its own state and version choose, and in no other |
| DdoDatabases.PatchKeepsSchema | src/components/database/TypenseDatabase.ts:371-387 | a patch within a shard leaves the document in that shard |
| DdoDatabases.UpdateRefinesMap | src/components/database/TypenseDatabase.ts:527-561 | update keeps every DID in one collection, the right one, and on the map of documents merges within a shard, replaces across shards, and touches no other DID; it stores exactly the accepted documents |
| DdoDatabases.SaveMeans | src/components/database/TypenseDatabase.ts:527-561 | field by field and leaf by leaf: within a shard what an update names is replaced and the rest stays; a new or moved document is stored as it came; other documents stay |
| DdoDatabases.AcceptedIff | src/components/database/TypenseDatabase.ts:371-416 | an active document needs a version with a collection and valid content, any other only the short collection |
| DdoDatabases.CreateMeans | src/components/database/TypenseDatabase.ts:466-491 | create stores the document as it came, or answers that no schema fits or that it is rejected, and then stores nothing |
| DdoDatabases.DeleteRefinesMap | src/components/database/TypenseDatabase.ts:563-600 | delete keeps the invariant, removes exactly the DID, and leaves no copy of it |
| DdoDatabases.CreateKeepsSoundnessIff | src/components/database/TypenseDatabase.ts:466-491 | create keeps the invariant exactly when no other collection holds the document |
| DdoDatabases.ClearChainRefinesMap | src/components/database/TypenseDatabase.ts:602-629 | deleteAllAssetsFromChain removes exactly the chain's documents and returns their number |
| DdoDatabases.DdoDatabase.Update | src/components/database/ElasticSearchDatabase.ts:647-691 | the method over the collections is the save on the map, for either engine |
| DdoDatabases.DdoDatabase.Retrieve | src/components/database/TypenseDatabase.ts:493-525 | the loop over schemas is lookup in the map |
| DdoDatabases.DdoDatabase.Delete | src/components/database/TypenseDatabase.ts:563-600 | the loop removes the DID and reports whether it was there |
| DdoDatabases.DdoDatabase.DeleteAllAssetsFromChain | src/components/database/TypenseDatabase.ts:602-629 | the loop with its running sum removes and counts the chain's documents |
| Processors.EventProcessors.ProcessMetadataEvent | src/components/Indexer/processor.ts:344-483 | the handler saves the stamped document exactly when creation or update is allowed |
| Processors.EventProcessors.ProcessMetadataStateEvent | src/components/Indexer/processor.ts:566-616 | the handler saves the document with the new state, or its short form |
| Processors.EventProcessors.ProcessOrderStartedEvent | src/components/Indexer/processor.ts:651-688 | the handler counts or resets, records the order, and saves the DDO |
| Processors.EventProcessors.ProcessOrderReusedEvent | src/components/Indexer/processor.ts:719-759 | the handler counts only the reuse of a known start order, and records it for that order's consumer |
| Processors.EventProcessors.ProcessChunkLogs | src/components/Indexer/utils.ts:136-233 | the logs before the one that throws are folded into the stores in order, the rest are not |
| Processors.ProcessLogsConcat | src/components/Indexer/utils.ts:146-231 | processing two lists of logs in turn is processing their concatenation |
| OrderRuns.ChainsStayWellFounded | src/components/Indexer/processor.ts:730-748 | whatever logs are processed, following startOrderId from any record ends at a start order of the same consumer |
| OrderRuns.Root | src/components/Indexer/processor.ts:730-748 | the order at the end of a reuse chain is a start order of the record's consumer |
| OrderRuns.CountStep | src/components/Indexer/processor.ts:660-687 | one order event adds one, nothing, or resets to one |
| OrderRuns.OrdersConservedIff | src/components/Indexer/processor.ts:660-687 | over any run of order events, stats.orders grows by the number of counted events exactly if no mismatching start arrives at a nonzero count, and never by more |
| OrderRuns.MatchingStartsNeverReset | src/components/Indexer/processor.ts:660-665 | if every start event matches the service it names, no count is lost |
| OrderRuns.ResetLosesOrders | src/components/Indexer/processor.ts:666-672 | a start event of another datatoken turns five orders into one |
| OrderRuns.RecordsGrowByCount | src/components/Indexer/processor.ts:673-682 | with transactions not seen before, the order records of the DID grow by the number counted |
| OrderRuns.RedeliveredOrdersCountAgain | src/components/Indexer/processor.ts:660-687 | redelivered order events are counted again: as many exactly if every reuse comes after its start, and then the records do not change; more otherwise |
| Origins.RecordsComeFromEvents | src/components/Indexer/processor.ts:673-682 | over any run from an empty order store, each record is that of an order event of its transaction, with that event's consumer or start order, payer, time, NFT and DID, and the service's datatoken |
| Origins.ConsumersComeFromStarts | src/components/Indexer/processor.ts:735-748 | and its consumer is the one of the OrderStarted event its reuses lead back to |
| Origins.DocumentsComeFromEvents | src/components/Indexer/processor.ts:428-446 | over any run from an empty store, each document has its own id and says what the metadata event it was last saved for said, with that event's transaction, sender, block and time, or it was stripped |
| Origins.MetadataSavedIff | src/components/Indexer/processor.ts:344-443 | a metadata event is saved exactly if proved, of its own DID, acceptable, and creating what is not active or updating from another transaction and block; otherwise it changes nothing |
| Origins.StateSavedIff | src/components/Indexer/processor.ts:566-616 | a heeded state event of a stored DID sets the state unless the store refuses the document; any other changes nothing |
| Origins.OrderStartedMeans | src/components/Indexer/processor.ts:651-688 | an OrderStarted event of a stored service counts one more if its datatoken is the service's, and else one, and is on record; any other changes nothing |
| Origins.OrderReusedMeans | src/components/Indexer/processor.ts:719-759 | an OrderReused event of a known start order counts one more on a DDO with stats; any other changes nothing |
| StateRuns.StateStep | src/components/Indexer/processor.ts:577-616 | a state event that does not strip stores the state and keeps everything else, the NFT's details included, or leaves the store as it was |
| StateRuns.StripsIff | src/components/Indexer/processor.ts:580-586 | the stripping step is from state 0 to 2 or 3 |
| StateRuns.StripStep | src/components/Indexer/processor.ts:580-603 | the direct step from active to deprecated or revoked leaves id, chain, NFT address and the new state, and nothing else; other documents stay |
| StateRuns.StrippedForGood | src/components/database/TypenseDatabase.ts:371-387 | after that no run of state events changes anything but the NFT, nor makes the DDO active again |
| StateRuns.ContentSurvivesIff | src/components/Indexer/processor.ts:577-616 | through any run of state events the content of a full DDO survives exactly if the run never takes that step |
| StateRuns.OthersUntouched | src/components/Indexer/processor.ts:566-616 | state events of a DID change no other document |
| Crawlers.Crawler.ProcessNetworkData | src/components/Indexer/crawlerThread.ts:112-213 | the loop over any rounds of the environment is the run of the step relation |
| Crawlers.Crawler.Crawl | src/components/Indexer/crawlerThread.ts:114-186 | one turn: window, fetch, halving, processing, commit |
| Crawlers.Crawler.ReindexCommand | src/components/Indexer/crawlerThread.ts:197-232 | serving the reset at the end of a turn |
| Crawlers.ResetGoesToCrawlingStart | src/components/Indexer/crawlerThread.ts:303-309 | the block a reset asks for is the crawling start block: the later of the configured and the deployed one |
| CrawlerRuns.FaultFreeRunIsOneFold | src/components/Indexer/crawlerThread.ts:112-177 | a run without faults leaves the stores as one fold over all logs it passed |
| CrawlerRuns.ChunkSizeIndependence | src/components/Indexer/crawlerThread.ts:136-149 | two such runs to the same block agree, whatever their chunk sizes and heights |
| CrawlerRuns.WindowsTile | src/components/Indexer/crawlerThread.ts:116-185 | under any fetch, commit and handler failures and any resets the windows since the last reset tile the way from where they started to the position, which never goes back between resets |
| CrawlerRuns.HeightBoundsPosition | src/components/Indexer/crawlerThread.ts:116-185 | in any run, failing reads included, the position is never below the crawling start nor beyond the highest height |
| CrawlerRuns.TilesPartition | src/components/Indexer/crawlerThread.ts:116-185 | tiling means that each block lies in exactly one committed window and that committed windows hold no others |
| CrawlerRuns.NeverFetchedIff | src/components/Indexer/crawlerThread.ts:141-171 | a block was never fetched exactly if getLogs failed for its committed window and no uncommitted attempt had fetched it |
| CrawlerRuns.FetchedYetCommittedWindowFailed | src/components/Indexer/crawlerThread.ts:141-171 | from any state two rounds lead to a block that was fetched although getLogs failed for every committed window |
| CrawlerRuns.RoundProcesses | src/components/Indexer/crawlerThread.ts:141-184 | a round processes the logs of a fetched window in order up to the one that throws, which is not processed, nor are the rest |
| CrawlerRuns.RunIsOneFold | src/components/Indexer/utils.ts:146-231 | whatever reads, fetches, commits and handlers fail, the stores are one fold over the windows' logs, each window cut at its throw |
| CrawlerRuns.NeverHandledIff | src/components/Indexer/crawlerThread.ts:162-184 | a log behind the position was never processed exactly if its block's committed window did not fetch it or threw at it or before, and so did every uncommitted attempt |
| CrawlerRuns.LastIndexedDecreasesIff | src/components/Indexer/crawlerThread.ts:56-65 | the last indexed block goes down exactly if reading it failed and a restarted window was committed below it |
| CrawlerRuns.FailedReadGoesBack | src/components/Indexer/crawlerThread.ts:116-121 | one failing read commits block 11 over block 1000 |
| CrawlerRuns.ResetStartsOver | src/components/Indexer/crawlerThread.ts:197-232 | a reset takes place exactly if asked for, not to block zero, and written; then the next window starts at the crawling start and exactly the chain's DDOs are gone |
| CrawlerRuns.CrawlingKeepsOrderChains | src/components/Indexer/crawlerThread.ts:112-213 | every order store a crawl reaches has well-founded reuse chains |
| CrawlerRuns.ChunkStaysInRange | src/components/Indexer/crawlerThread.ts:156-177 | between turns the chunk size is at least two and at most the configured one |
| CrawlerRuns.ChunkAfterFailures | src/components/Indexer/crawlerThread.ts:156-177 | k failures in a row give the configured size divided by 2^k, until that would be one and the configured size is back |
| CrawlerRuns.ReachesHeight | src/components/Indexer/crawlerThread.ts:136-177 | with commits succeeding every turn gains two blocks or reaches the height, whatever else fails |
| CrawlerRuns.ReachesHeightByChunks | src/components/Indexer/crawlerThread.ts:136-149 | without failing fetches every turn gains exactly a chunk |
| Redelivery.StoreIsFoldPerDid | src/components/Indexer/utils.ts:191-203 | for one DID the store is a fold over that DID's own metadata logs |
| Redelivery.BlockOnDormant | src/components/Indexer/processor.ts:373-403 | a block gives a DID without an active document its first usable creation, or the first usable event of either kind if the store knows its event, and nothing else |
| Redelivery.BlockOnRegistered | src/components/Indexer/processor.ts:522-540 | a block gives a registered DID its first usable update and nothing else |
| Redelivery.SaveAllTwice | src/components/database/TypenseDatabase.ts:527-561 | saving a list of documents a second time changes nothing, even if they move between shards |
| RedeliveredWindows.LeadIsWaking | src/components/Indexer/processor.ts:52-64 | in a block that wakes a DID and has no update of another transaction, the first usable update is the waking document itself |
| RedeliveredWindows.WindowSavesLeads | src/components/Indexer/processor.ts:388-423 | a window saves the first usable update of each block, in order |
| RedeliveredWindows.RegisteredTwice | src/components/Indexer/processor.ts:388-423 | for a registered DDO a second delivery of a window changes nothing |
| RedeliveredWindows.DormantTwice | src/components/Indexer/processor.ts:372-443 | for a DID unknown or stored inactive the same holds if the schedule is safe |
| RedeliverySchedules.SafeIsHarmless | src/components/Indexer/processor.ts:372-443 | a safe schedule is harmless with any documents in its events |
| RedeliverySchedules.EarlyUpdateHarms | src/components/Indexer/processor.ts:388-403 | a decodable update in a block before the creation, that cannot wake the DID, is skipped by the first pass and saved by the second |
| RedeliverySchedules.SharedBlockHarms | src/components/Indexer/processor.ts:531-537 | so is a decodable update of another transaction in the creation's block, if a later block has another |
| RedeliverySchedules.AnotherNftMayOpen | src/components/Indexer/processor.ts:344-349 | an update counts even if its transaction opens with another NFT's event, because only the id in the document is compared |
| RedeliverySchedules.HarmlessIffSafe | src/components/Indexer/processor.ts:372-443 | for a DID unknown or stored inactive, redelivery is harmless for every content of the events exactly if the schedule is safe: no update that cannot wake the DID before a creation, and none of another transaction in a creation's block while a later block has one |
| ExactlyOnce.Delivery | src/components/Indexer/crawlerThread.ts:162-175 | delivering a window leaves a state that a second delivery does not change |
| ExactlyOnce.StaysOnTrack | src/components/Indexer/crawlerThread.ts:150-175 | after any failing commits and fetches, delivering the blocks from the position, or from any later block reached, gives what one delivery of all fetched blocks gives |
| ExactlyOnce.FetchedIsProcessedExactlyOnce | src/components/Indexer/crawlerThread.ts:112-185 | if every DID is ready and no fetched block was passed after a shorter window, the DDO store ends as after one pass over the fetched blocks, with any failing commits and fetches |
| ExactlyOnce.MetadataIsProcessedExactlyOnce | src/components/Indexer/crawlerThread.ts:112-185 | if every DID is ready, with any failing commits the DDO store ends as after one pass over the blocks |
| PassedBlocks.EndsAsOnePassIffNothingPassed | src/components/Indexer/crawlerThread.ts:150-175 | a run with failing commits and fetches ends as one pass over the fetched blocks, on every chain and store it can meet, exactly if no fetched block was passed after a shorter window |
| PassedBlocks.PassedLoses | src/components/Indexer/crawlerThread.ts:150-175 | a chain with two updates on which a run that passes a fetched block ends with the older one |
| PassedBlocks.PassingRun | src/components/Indexer/crawlerThread.ts:150-177 | four rounds in which every block is fetched and committed, and half of them are passed |
| PassedBlocks.PassedUpdateIsLost | src/components/Indexer/crawlerThread.ts:150-175 | after these rounds a DDO with updates in both halves is back at the first half |
| Strings.SplitJoinIff | src/components/database/ElasticSearchMetadataQuery.ts:20-20 | splitting what was joined gives the parts back exactly if no part runs into its separator |
| Queries.BuildTypesenseQuery | src/components/database/TypesenseMetadataQuery.ts:5-61 | the loops print every term and terms clause in order and join them |
| Queries.BuildElasticQuery | src/components/database/ElasticSearchMetadataQuery.ts:5-48 | the loop parses every part into the filter or must_not list, in order |
| Queries.TranslationIsIdempotent | src/components/database/TypesenseMetadataQuery.ts:5-18 | a query that was translated stays as it is when translated again, in either direction |
| QueryRoundTrip.FilterRoundTrip | src/components/database/TypesenseMetadataQuery.ts:19-50 | printing and parsing gives the same clauses in the same order |
| QueryRoundTrip.QueryRoundTrip | src/components/database/ElasticSearchMetadataQuery.ts:9-41 | whole queries come back, with from and size normalised |
| QueryRoundTrip.PagingIsKept | src/components/database/TypesenseMetadataQuery.ts:5-17 | in either direction paging is kept, a missing start is 0, a missing or zero size is 10; a query already in the dialect stays |
| SingleClauses.TermRoundTripIff | src/components/database/ElasticSearchMetadataQuery.ts:34-39 | a single term comes back exactly if field and value are free of separators and the value does not begin with a bracket |
| SingleClauses.NegativeTermRoundTripIff | src/components/database/ElasticSearchMetadataQuery.ts:23-27 | a single negative term comes back exactly if neither field nor value holds the negative operator or the separator of parts |
| SingleClauses.ListRoundTripIff | src/components/database/ElasticSearchMetadataQuery.ts:28-33 | a single list comes back exactly if it has items without commas, no separators in field or items, and closing brackets only at the end |
| SingleClauses.NoValueBecomesText | src/components/database/TypesenseMetadataQuery.ts:19-50 | a term without a value is printed as the text undefined |
| SingleClauses.OthersAreDropped | src/components/database/TypesenseMetadataQuery.ts:19-50 | a clause that is neither term nor terms is dropped wherever it stands |
| SingleClauses.NoOperatorNoValue | src/components/database/ElasticSearchMetadataQuery.ts:23-41 | a part without an operator becomes a term without a value |
| QueryMeaning.ToFilterPreservesMeaning | src/components/database/TypesenseMetadataQuery.ts:19-50 | the filter string accepts the documents that the bool query does, for term and terms, positive and negative |
| QueryMeaning.ToBoolPreservesMeaning | src/components/database/ElasticSearchMetadataQuery.ts:19-41 | the parsed bool query accepts the documents that the filter string does |
| QueryMeaning.NegativePartMeansIff | src/components/database/ElasticSearchMetadataQuery.ts:23-27 | a negative part is read as it is meant by a document exactly if its value is no list, or the field is missing, or being on the list and being its text agree |
| QueryMeaning.NegativeKeepsMeaningIff | src/components/database/ElasticSearchMetadataQuery.ts:23-27 | a negative filter keeps its meaning for every document exactly if its value is no list |
| QueryMeaning.NegativeListIsMisread | src/components/database/ElasticSearchMetadataQuery.ts:23-27 | the shortest witness: a document on the list gets through |
| RateLimiters.Handler.CheckRateLimit | src/components/core/handler/handler.ts:40-103 | one caller or several are charged in turn up to the first that is over its limit |
| RateLimiters.Handler.CheckRequestData | src/components/core/handler/handler.ts:111-135 | one charge: a new window or one more request in the running one |
| RateLimiters.TraceBounded | src/components/core/handler/handler.ts:111-135 | over any trace, what an entry says about the admissions of a second |
| RateLimiters.RateBound | src/components/core/handler/handler.ts:40-135 | no remote is let through more than 2 * max(1, R) - 1 times in any half-open second |
| RateLimiters.RateBoundIsReached | src/components/core/handler/handler.ts:111-135 | for every R of one or more some trace reaches the bound |
| RateLimiters.LockoutEnds | src/components/core/handler/handler.ts:117-134 | one second after its window started a remote is let through, whatever it sent in between |
| RateLimiters.CallerLetThroughIff | src/components/core/handler/handler.ts:40-103 | a call is let through exactly if each of its remotes, taken in turn and counting repeats, starts a window or has room in the running one |
| RateLimiters.EveryRequestCounts | src/components/core/handler/handler.ts:117-134 | every request of a running window counts, let through or not |
| RateLimiters.OthersKeepEntries | src/components/core/handler/handler.ts:59-80 | a call leaves all entries alone but those of the remotes up to the first that is over its limit |
| Nonces.NonceTable.GetNonce | src/components/core/utils/nonceHandler.ts:36-68 | the stored nonce, or a new row with zero |
| Nonces.NonceTable.CheckNonce | src/components/core/utils/nonceHandler.ts:99-139 | a nonce is accepted and stored exactly if it is greater, signed and written |
| Nonces.NonceTable.Delete | src/components/database/sqlite.ts:71-91 | the row goes and its nonce is returned |
| Nonces.NoncesIncrease | src/components/core/utils/nonceHandler.ts:99-191 | accepted nonces strictly increase, and the stored one is the last accepted |
| Nonces.AcceptedIffNew | src/components/core/utils/nonceHandler.ts:99-191 | at any time a request is accepted exactly if it is signed, written, and its nonce exceeds all accepted before |
| Nonces.AcceptedWereSigned | src/components/core/utils/nonceHandler.ts:160-185 | every nonce accepted from a consumer comes from a signed and written request of that consumer in the run |
| Nonces.RequestMeans | src/components/core/utils/nonceHandler.ts:114-139 | an accepted request stores its nonce in its consumer's row; an unsigned, stale or unwritten one changes no row |
| ComputeFees.VerifyProviderFees | src/components/core/utils/feesHandler.ts:138-234 | valid exactly if all fee events are, and for compute if the last names the environment and lasts long enough |
| ComputeFees.ValidIff | src/components/core/utils/feesHandler.ts:146-233 | a receipt is found valid exactly if it is mined and has fee events, each with JSON data, from the node's wallet, for the service and its datatoken, not expired; for compute the last names the environment long enough |
| ComputeFees.CreatedFeeIsVerified | src/components/core/utils/feesHandler.ts:52-137 | an ordered fee is valid exactly until it expires, for compute exactly if it is a compute fee for the environment that lasts long enough |
| ComputeFees.HandleAsset | src/components/core/compute/initialize.ts:75-269 | one turn of the loop: which fee the asset gets and whether compute is then found |
| ComputeFees.InitializeCompute | src/components/core/compute/initialize.ts:66-285 | every decryptable asset with an invalid fee gets one fee, others none; the fee is a compute fee exactly if nothing so far has paid |
| ComputeFees.FailsIff | src/components/core/compute/initialize.ts:75-190 | which assets make a request fail |
| ComputeFees.FeeIssuedIff | src/components/core/compute/initialize.ts:195-268 | an asset gets a fee exactly if it is decryptable and no valid order has paid this provider for it |
| ComputeFees.IssuedFeeSays | src/components/core/compute/initialize.ts:241-268 | what an issued fee says: wallet, service, datatoken, and for compute the environment and the time asked for |
| FeeProtocol.AtMostOneComputeFee | src/components/core/compute/initialize.ts:229-268 | at most one compute fee, and only if no asset so far has paid |
| FeeProtocol.ComputeFeeIssuedIff | src/components/core/compute/initialize.ts:229-268 | a compute fee is issued exactly if an asset needs a fee and none before it has paid |
| FeeProtocol.NoComputeMeansNothingToIssue | src/components/core/compute/initialize.ts:274-279 | if no compute is found in the end, every decryptable asset has a valid fee without compute |
| FeeProtocol.FeeLifetime | src/components/core/compute/initialize.ts:234-240 | a fee lasts to the time asked for or to the end of the order, whichever is first |
| FeeProtocol.StartCompute | src/components/core/compute/startCompute.ts:96-312 | the loop starts the job for the first asset that pays for compute, never for an order that paid another provider, service or datatoken, or fails |
| FeeProtocol.PaysIffPaid | src/components/core/compute/startCompute.ts:256-283 | an order counts as paying exactly if all its fee events paid this provider for this service and datatoken, unexpired, and the last names the environment |
| FeeProtocol.StopsIff | src/components/core/compute/startCompute.ts:96-255 | which assets stop a job |
| FeeProtocol.IssuedFeesAreAccepted | src/components/core/utils/feesHandler.ts:138-234 | every issued fee, once ordered, is valid until it expires; the compute fee and no other pays for compute, until the time asked for |
| FeeProtocol.ComputeFeeIsChargedIff | src/components/core/compute/startCompute.ts:256-283 | the job is charged to the issued compute fee exactly if no kept order of an earlier asset still pays for the environment |
| FeeProtocol.FreshOrdersAreChargedAsIssued | src/components/core/compute/startCompute.ts:256-283 | if every asset got its fee from the request, it always is |
| FeeProtocol.ShortKeptOrderIsCharged | src/components/core/compute/startCompute.ts:256-283 | a kept order with a compute fee that was issued for a shorter time can be charged instead |
| FindDdos.FindDdoHandler.Handle | src/components/core/handler/ddoHandler.ts:460-692 | without P2P the own copy is the answer; otherwise at most five peers are asked once each, and results, cache and its time follow from their answers |
| FindDdos.FindDdoHandler.Poll | src/components/core/handler/ddoHandler.ts:611-662 | the do/while loop ends after one pass |
| FindDdos.FindDdoHandler.ReadAnswer | src/components/core/handler/ddoHandler.ts:512-590 | an answer is attributed to the peer last put on the stack, whatever stale ids lie below |
| FindDdos.FindDdoHandler.ContactPeer | src/components/core/handler/ddoHandler.ts:623-649 | one contact counts at least once and yields the answer of the peer asked |
| FindDdos.FindDdoHandler.Remember | src/components/core/utils/findDdoHandler.ts:81-91 | a cache entry is replaced only by a newer one |
| FindDdos.ResultsAreAttributed | src/components/core/handler/ddoHandler.ts:535-545 | the results are exactly the legitimate answers, each under the peer that gave it |
| FindDdos.ResultsAreLegitimate | src/components/core/handler/ddoHandler.ts:535-563 | a result is the id, transaction and time of a legitimate answer, under the peer that gave it; refused answers give none |
| FindDdos.OthersKeepTheirPlace | src/components/core/handler/ddoHandler.ts:605-609 | the own id is never asked, and every other provider keeps its place |
| FindDdos.AtMostFiveAreAsked | src/components/core/handler/ddoHandler.ts:613-618 | the first five providers are asked, or all if there are fewer |
| FindDdos.NewestWins | src/components/core/utils/findDdoHandler.ts:81-91 | after any results the cached entry is one of those seen and none seen is newer |
| FindDdos.NothingNewerKeeps | src/components/core/utils/findDdoHandler.ts:81-91 | an entry that nothing seen is strictly newer than stays |
| FindDdos.NewestFirstSorts | src/components/core/utils/findDdoHandler.ts:35-49 | the answer is the results, newest first |
| FindDdos.NewestFirstIsStable | src/components/core/utils/findDdoHandler.ts:35-49 | results of one time keep the order they came in |
| TypesenseApis.TypesenseApi.GetNextNode | src/components/database/typesenseApi.ts:64-73 | the next node, with the index in range |
| TypesenseApis.TypesenseApi.Request | src/components/database/typesenseApi.ts:75-162 | attempts stop at the first reply that is not retried, or after numRetries + 1, on consecutive nodes |
| TypesenseApis.CallsGoRound | src/components/database/typesenseApi.ts:64-73 | calls go round the nodes |
| TypesenseApis.RoundRobinIsFair | src/components/database/typesenseApi.ts:64-73 | after any number of calls each node was returned the same number of times, give or take one |
| TypesenseApis.SingleNode | src/components/database/typesenseApi.ts:64-73 | a single node is returned by every call, and the index stays |
| TypesenseApis.VisitedAreConsecutive | src/components/database/typesenseApi.ts:90-158 | the nodes tried follow one another cyclically |

## Left out

- Transports, HTTP routes, P2P, worker threads, streams, logging, configuration and the dashboard: plumbing around the logic.
- Decryption, hashing, signatures, ABI decoding, SHACL validation, policy server and purgatory: predicates or inputs of the model.
- The ddoState collection, the emitted events and the `datatokens` field: written, never read back by the logic modelled here.
- DDO store operations that fail half way (a delete that succeeds and a create that does not): the runs assume the DDO and order databases answer.
- processReindex and the job queues of the indexer: a missing receipt is retried at once without end, and the queues' listener reads fields the messages do not carry.
- Recovery of a reset whose deletion of assets fails: the block to go back to may be undefined there, so deletion is assumed to succeed.
- A chain whose deployed block is unknown: the comparison with undefined then keeps the loop from crawling.
- A network height that cannot be read: the exception ends the loop.
- The Elasticsearch order store: it overwrites a record with the same transaction id, where the modelled Typesense store refuses it.
- Sorting of queries: the two dialects use different shapes. Paging and filters are modelled.
- The meaning of clauses that are neither term nor terms: they are dropped (`SingleClauses.OthersAreDropped`), so the theorems on meaning exclude them.
- Values of queries that are not strings: numbers and booleans come back from the parser as strings.
- Nonce reads that fail: the runs assume the table answers. The decrypt handler's own nonce update and interleavings inside checkNonce are not modelled.
- Amounts, tokens and signatures of provider fees: nothing in verification reads them. The algorithm's metadata that startCompute copies is left out too.
- The 60 second timeout of FindDDO: its callback's return value is not used.
- Documents.PatchIsAssociative: does not cover a path that changes between leaf and object, because documents are maps from leaf path to value here; merge patch is not associative there.
- RedeliverySchedules.HarmlessIffSafe: is about DIDs without an active document; for a registered, active DDO of an older block RedeliveredWindows.RegisteredTwice needs no condition. Stored documents without an `nft` field, which no handler leaves behind, are not covered.
- ExactlyOnce.MetadataIsProcessedExactlyOnce: covers metadata events with active NFTs, for DIDs that are `Ready`; order events are counted again when redelivered (`OrderRuns.RedeliveredOrdersCountAgain`), and state events are not part of the chain there. Failing reads, throwing handlers and resets are excluded.

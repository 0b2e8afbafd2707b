# Kasia indexer: a verified model

The Kasia indexer follows a Kaspa node. It stores every messaging transaction it
sees in a block, follows the node's virtual chain to learn which block accepted
each transaction, looks up senders it could not tell at first, and fills gaps
after an interruption. This project models that pipeline in Dafny and proves what
it is meant to guarantee, over every run of the state machines involved.

| file | models |
|---|---|
| `src/Bytes.dfy` | byte strings, lexicographic order, big- and little-endian numbers |
| `src/AcceptanceLog.dfy` | the stored acceptance value: a 40-byte header and a log of deferred writes |
| `src/ChainStore.dfy` | acceptance values, tracked lists and pending senders under chain changes |
| `src/CatchUp.dfy` | a store over its whole life: catch-ups, outages, restarts, leftovers |
| `src/PendingExact.dfy` | which pending sender requests are needless, and when there are none |
| `src/Cursors.dfy` | the persisted accepting-block cursor |
| `src/VirtualProcessor.dfy` | the virtual chain processor and its handlers |
| `src/RealtimeOrder.dfy` | order of real-time chain changes over whole runs |
| `src/Lookups.dfy` | when a lookup in the store or the block cache fails |
| `src/SenderRequests.dfy` | which senders a commit asks for |
| `src/Prompt.dfy` | what is cached, parked and queued, and for how long |
| `src/Shutdown.dfy` | how the processor ends when told to |
| `src/SyncTarget.dfy` | when the processor stops syncing |
| `src/SyncProtocol.dfy` | the processor running beside its syncers: acknowledgements, contiguity |
| `src/Pipeline.dfy` | runs of the processor as runs of the store and of the cursor |
| `src/MessageIndexes.dfy` | key layouts of the message indexes, eager and deferred writes |
| `src/DeferredReplay.dfy` | message handlers, sender resolution, and their equivalence |
| `src/MessageKeys.dfy` | what the indexes hold, by partition and key bytes |
| `src/GapFilling.dfy` | the block worker running beside its gap fillers |
| `src/KeyScan.dfy` | prefix-and-time range scans |
| `src/DaaIndex.dfy` | the DAA index, pruning, and the key migration |
| `src/Scalar256.dfy` | 256-bit addition modulo the order of secp256k1 |
| `src/GiftClaims.dfy` | concurrent gift claims |
| `src/PushScope.dfy` | the wallet a contextual push goes to |
| `src/Parser.dfy` | the payload grammar |

Objects the program updates in place are classes; each handler is a method proved
against a function on values (`OnRealtime`, `Apply`, `Deferred`, ...), and the
properties are proved about those functions over whole runs. A database write
transaction is one step.

## What the environment is taken to promise

- A chain change that is not empty adds a block; its accepted-transaction entries
  name its added blocks; it removes blocks of the chain it was computed from
  (`ChainStore.ValidChange`, `SyncProtocol.Proper`).
- A block hash determines its header; a transaction is accepted by at most one
  block of any one chain; a transaction id determines its receiver.
- Notifications come after the first connection, and a removed block that is
  tracked is still cached.

## Where the code does not do what one would expect

Each of these is stated as an exact condition.

- A transaction seen again in a second block, after it was accepted and its sender
  resolved, leaves log entries nobody asks the sender for
  (`ChainStore.SightingCoverage`, `ChainStore.ResightingBreaksCoverage`).
- The counter of running gap fillers goes wrong when the first connection opens a
  gap whose target already has a recorded gap
  (`GapFilling.ConnectCounts`, `GapFilling.CounterUnderflows`).
- A reconnection with no block notified since the one before it opens no gap. A
  restart fetches the blocks between the two sinks only if no block is notified
  before it; otherwise no gap is opened over them any more (`GapFilling.ReconnectCovers`,
  `GapFilling.SecondOutageUncovered`, `GapFilling.SecondOutageLost`).
- A resolution that answers a request made before a reorg, and pruning, can leave a
  request pending that nothing needs any more (`PendingExact.ResolutionExact`,
  `PendingExact.PruningExact`, with the runs `PendingExact.LateAnswer` and
  `PendingExact.PrunedUnanswered`).
- A drain cut short by a disconnect, after a sync that was ahead of it, can leave a
  block tracked for ever that is on no chain any more, and a transaction in the
  lists of two blocks (`CatchUp.LeftoversExactly`, `CatchUp.LeftOver`).
- Changes queued during a sync wait for the next processed block after it ends, even
  when nothing in them is missing a block (`Prompt.HeldBackOnlyForBlocks`,
  `Prompt.SyncEndLeavesQueue`).
- A gift claim dropped before its failure is written back keeps its wallet and its
  device from ever claiming again (`GiftClaims.MayClaimExactly`).
- The acceptance header of a transaction that leaves the chain is not cleared; it
  goes on naming the removed block (`ChainStore.RemovedKeepsHeader`).
- A pruned block stored again with both its writes between the two deletions of
  pruning loses its DAA index key; no other order of the four writes does harm
  (`DaaIndex.PruneInterleaved`).
- A key migration that is interrupted after it has replaced one key of a stored
  block fails every time it is run again, and one interrupted between the deletion
  and the insertion loses that key (`DaaIndex.RerunsExactly`,
  `DaaIndex.InterruptedKeyLost`).
- Message scans documented as "from a block time" never return a message whose
  block time is 2^64 - 1 (`KeyScan.RangeScan` and the lemmas after it).
- A wallet whose newest update is 2^64 - 1 is chosen although the runner-up is
  within the margin, and of two such wallets whichever the sort puts first
  (`PushScope.FreshestIsBeats`, `PushScope.TieAtTheEnd`).
- Addition modulo the group order subtracts the order once, so it is the sum
  modulo n only for sums below 2n (`Scalar256.ReducedIsModular`).

## Model

| member | source | states |
|---|---|---|
| `ChainStore.CatchUpConvergence` | indexer-actors/src/virtual_chain_processor.rs:484-635 | Draining queued chain changes onto a store that already stands on the chain any further changes lead to: at the end every mentioned block is tracked exactly when on the final chain (unless pruned) with all its previously indexed transactions, unmentioned blocks keep their lists, tracked transactions of the final chain carry their true accepting block and score; pending coverage carries over where it held |
| `ChainStore.CatchUpRestoresAgreement` | indexer-actors/src/virtual_chain_processor.rs:484-635 | When the store stood after the first m queued changes, draining all of them ends with only final-chain blocks tracked and headers agreeing, so an ordinary run can continue from there |
| `ChainStore.SyncBringsTo` | indexer-actors/src/virtual_chain_processor.rs:516-547 | A sync run from whatever chain the store stands on, ending on a chain the queued changes lead to from another start, establishes the hypothesis of catch-up convergence |
| `Pipeline.DrainConverges` | indexer-actors/src/virtual_chain_processor.rs:662-680 | The drain loop after such a sync, over a queue whose changes follow one from the other up to the first that waits: it does not panic, commits the queue in order up to that one, the store is then right for the chain those changes lead to, and tracks only its blocks if and only if nothing is left over |
| `Pipeline.LegalDrain` | indexer-actors/src/virtual_chain_processor.rs:662-680 | A queue is legal if and only if draining it neither panics nor commits an illegal change |
| `CatchUp.LeftoversExactly` | indexer-actors/src/virtual_chain_processor.rs:484-635 | After changes that follow from a chain the store agrees with, only final-chain blocks are tracked if and only if every tracked block they neither mention nor prune was on the chain they start from |
| `CatchUp.LifeAgrees` | indexer-actors/src/virtual_chain_processor.rs:139-204 | Over whole lives of a store, phases starting from different chains as syncs, drains and restarts do: headers agree with the last chain, and coverage carries over in safe lives |
| `CatchUp.LifeOnChain` | indexer-actors/src/virtual_chain_processor.rs:139-204 | When every phase passes the chain the one before it led to, only blocks of the last chain are tracked in the end |
| `CatchUp.LeftOver` | indexer-actors/src/virtual_chain_processor.rs:156-159 | A legal life from an empty store, with a drain cut short by a disconnect, that leaves a block tracked that is on no chain any more and one transaction in the lists of two blocks |
| `ChainStore.AcceptanceAgreement` | indexer-actors/src/virtual_chain_processor.rs:549-635 | Over every run from an empty store, with sightings, resolutions and prunings interleaved: only chain blocks are tracked, their lists are disjoint, and every tracked transaction has an acceptance record naming its block and that block's score |
| `ChainStore.RemovedKeepsHeader` | indexer-actors/src/virtual_chain_processor.rs:566-575 | A transaction whose block a change removes and no added block accepts ends untracked, with a header that still names the removed block |
| `ChainStore.PendingCoverage` | indexer-actors/src/virtual_chain_processor.rs:576-628 | After every run without an unsafe sighting, each tracked transaction with unresolved entries is pending under its block's score |
| `ChainStore.SightingCoverage` | indexer-db/src/processing/tx_id_to_acceptance.rs:82-115 | A sighting keeps pending coverage if and only if it adds no entries or the transaction's tracked chain blocks already have it pending |
| `ChainStore.ResightingBreaksCoverage` | indexer-db/src/processing/tx_id_to_acceptance.rs:103-112 | A legal run from an empty store in which a second sighting of an accepted, resolved transaction breaks coverage |
| `ChainStore.FirstSightingSafe` | indexer-actors/src/block_processor.rs:351-476 | The first sighting of a transaction can never break coverage |
| `PendingExact.PendingExactly` | indexer-actors/src/virtual_chain_processor.rs:576-628 | After every tidy run, reorgs included, a request is pending if and only if some block of that score tracks the transaction and its entries are unresolved |
| `PendingExact.UntrackTakesBack` | indexer-actors/src/virtual_chain_processor.rs:576-585 | Removing a block takes back the requests made for it, so none is left pending without a block |
| `PendingExact.ChangeExact` | indexer-actors/src/virtual_chain_processor.rs:484-514 | A chain change never leaves a needless request pending |
| `PendingExact.ResolutionExact` | indexer-actors/src/virtual_chain_processor.rs:745-752 | A resolution leaves a needless request if and only if the transaction is also pending under another score |
| `PendingExact.PruningExact` | indexer-actors/src/periodic_processor.rs:83-108 | On a covered store, pruning leaves a needless request if and only if a pruned tracked block lists a transaction with unresolved entries |
| `PendingExact.LateAnswer` | indexer-actors/src/virtual_chain_processor.rs:745-752 | A legal run, a reorg before the answer arrives, after which a request stays pending that nothing needs |
| `PendingExact.PrunedUnanswered` | indexer-actors/src/periodic_processor.rs:83-108 | A legal run that prunes a block before the answer for it arrives and leaves its request pending |
| `ChainStore.UntrackKeeps` | indexer-actors/src/virtual_chain_processor.rs:549-587 | Removing one block keeps header agreement and coverage of the rest of the chain, although it rewrites headers with the removed block |
| `ChainStore.TrackKeeps` | indexer-actors/src/virtual_chain_processor.rs:589-635 | Adding one block extends header agreement and coverage to it |
| `ChainStore.ApplyShape` | indexer-actors/src/virtual_chain_processor.rs:484-514 | What one chain change leaves tracked: removed blocks gone, added ones complete, all others with their old lists |
| `ChainStore.ApplyKeeps` | indexer-actors/src/virtual_chain_processor.rs:484-514 | One chain change carries header agreement and coverage from the old chain to the new one |
| `ChainStore.RequestsBecomePending` | indexer-actors/src/virtual_chain_processor.rs:613-628 | Every sender request sent while a change is applied is pending afterwards |
| `SenderRequests.StepRequests` | indexer-actors/src/virtual_chain_processor.rs:613-628 | Every commit of every handler requests the sender of (score, transaction) if and only if its change lists the transaction under a cached block of that score and the transaction's record holds entries |
| `SenderRequests.PendingWasAsked` | indexer-actors/src/virtual_chain_processor.rs:613-628 | Over every run, whatever becomes pending was requested by some commit of that run |
| `ChainStore.StepKeeps` | indexer-actors/src/virtual_chain_processor.rs:549-635 | Chain changes, sightings, resolutions and prunings each keep header agreement and never forget an acceptance key |
| `VirtualProcessor.Processor.HandleConnect` | indexer-actors/src/virtual_chain_processor.rs:220-304 | Initial connection requests all pending senders and starts a syncer at the cursor or pruning point; while syncing only the target may move; when synced a new syncer starts at the last accepting block unless that is the sink |
| `Prompt.SpawnsExactly` | indexer-actors/src/virtual_chain_processor.rs:220-304 | A connection starts a syncer if and only if it is the first, or no sync runs and the last accepting block neither is the sink nor lies on more work; it starts there |
| `VirtualProcessor.Processor.HandleDisconnect` | indexer-actors/src/virtual_chain_processor.rs:156-159 | Clears the real-time queue and nothing else |
| `VirtualProcessor.Processor.HandleShutdown` | indexer-actors/src/virtual_chain_processor.rs:306-316 | Exits unless syncing, in which case the syncer is told to stop |
| `Shutdown.ShutsDown` | indexer-actors/src/virtual_chain_processor.rs:306-316 | Without a sync the processor exits at once; during one it tells the syncer to stop and, whatever else arrives, later exits cleanly exactly on the stop notice of the syncer current then |
| `Shutdown.NeverExitsUnasked` | indexer-actors/src/virtual_chain_processor.rs:441-464 | Before a shutdown no stop notice ends the processor cleanly, and only the current syncer's is an error |
| `VirtualProcessor.Processor.HandleSyncerVc` | indexer-actors/src/virtual_chain_processor.rs:318-380 | Refines the transition for sync responses: acknowledge empty ones, park those with uncached blocks, commit the rest, with every panic site named |
| `VirtualProcessor.Processor.HandleRealtimeVcc` | indexer-actors/src/virtual_chain_processor.rs:382-433 | Refines the transition for real-time changes: queued unless synced with an empty queue and all blocks cached |
| `VirtualProcessor.Processor.HandleSyncerStopped` | indexer-actors/src/virtual_chain_processor.rs:441-464 | Refines the transition for a syncer's end: failure of the current syncer is an error, of earlier ones ignored |
| `VirtualProcessor.Processor.HandleProcessedBlock` | indexer-actors/src/virtual_chain_processor.rs:637-730 | Refines the transition for a processed block: cache it, then drain the queue or commit the parked response |
| `VirtualProcessor.Processor.DrainQueue` | indexer-actors/src/virtual_chain_processor.rs:662-680 | The loop that drains the real-time queue computes the recursive drain, state, order of effects and panics included |
| `VirtualProcessor.Processor.InsertBlock` | indexer-actors/src/virtual_chain_processor.rs:649-661 | The cache after a block: oldest entries evicted down to the capacity, the block included |
| `VirtualProcessor.Processor.HandleVcc` | indexer-actors/src/virtual_chain_processor.rs:484-514 | Succeeds exactly when every lookup a change needs succeeds, and then applies removals, additions and the cursor update |
| `VirtualProcessor.Processor.HandleVccRemoval` | indexer-actors/src/virtual_chain_processor.rs:549-587 | The loops over a removed block's list: exactly when they succeed, and the store they leave as a comprehension over that list |
| `VirtualProcessor.Processor.HandleVccAddition` | indexer-actors/src/virtual_chain_processor.rs:589-635 | The loop over an added block's transactions: known ones get the header and are tracked in order, those with entries become pending and are requested |
| `RealtimeOrder.RealtimeOrdering` | indexer-actors/src/virtual_chain_processor.rs:382-433 | Over every run: real-time changes applied since the last disconnect, followed by those queued, are those received, in order, empty ones dropped |
| `RealtimeOrder.DrainedInOrder` | indexer-actors/src/virtual_chain_processor.rs:662-680 | A drain splits the queue into what it commits and what stays, in order |
| `RealtimeOrder.DrainedCommits` | indexer-actors/src/virtual_chain_processor.rs:662-680 | A drain commits only changes whose added blocks are cached, and stops only on an empty queue or a missing block |
| `RealtimeOrder.CommitsOnlyCached` | indexer-actors/src/virtual_chain_processor.rs:637-730 | No handler commits a change with an uncached block, and after a block in the synced state the queue is empty or waits |
| `RealtimeOrder.CachedKeeps` | indexer-actors/src/virtual_chain_processor.rs:649-661 | The order list enumerates the cached blocks once each and never exceeds the capacity, of at least one block |
| `RealtimeOrder.EvictsOldest` | indexer-actors/src/virtual_chain_processor.rs:653-657 | Eviction is oldest first, happens only at capacity, and leaves the other cached blocks as they were |
| `Prompt.StepCaches` | indexer-actors/src/virtual_chain_processor.rs:637-661 | A processed block is cached with its data, nothing is evicted before the first connection, and no other input touches the cache |
| `Prompt.HeldBackOnlyForBlocks` | indexer-actors/src/virtual_chain_processor.rs:649-727 | Over every run a sync response stays parked only while a block it adds is not cached, and real-time changes stay queued in the synced state only while the first misses a block or from the end of a sync to the next processed block |
| `Prompt.SyncEndLeavesQueue` | indexer-actors/src/virtual_chain_processor.rs:361-377 | The step that ends a sync leaves queued changes queued, even when nothing is missing |
| `SyncTarget.SyncedMeansMet` | indexer-actors/src/virtual_chain_processor.rs:243-302 | Over every run: the sync target is the sink announced last, and the processor is synced only if its last accepting block has since been that sink or lain on more work |
| `SyncTarget.AdvancedEnds` | indexer-actors/src/virtual_chain_processor.rs:361-377 | A committed response ends the sync if and only if its last block meets the target |
| `SyncProtocol.AckProtocol` | indexer-actors/src/virtual_chain_syncer.rs:39-98 | In every interleaving before shutdown a live sync has exactly one token, no assertion or unreachable arm for syncer messages or acknowledgements fires, and every acknowledgement finds room and a waiting syncer |
| `Lookups.LookupsSucceed` | indexer-actors/src/virtual_chain_processor.rs:549-635 | Over every interleaving before shutdown: a run ends in a failed lookup if and only if some change it applies removes a tracked block, or lists transactions of a block, that is not cached; otherwise it ends by itself only because the current syncer failed |
| `Lookups.StepDangles` | indexer-actors/src/virtual_chain_processor.rs:549-635 | No event, legal or not, leaves a tracked transaction without an acceptance key |
| `Lookups.PromisedFits` | indexer-actors/src/virtual_chain_processor.rs:549-635 | What the node promises of a change makes its lookups succeed as long as the tracked blocks it removes are cached |
| `SyncProtocol.SyncContiguity` | indexer-actors/src/virtual_chain_processor.rs:361-377 | Over every run, new syncers included, each committed sync response was requested from the last block added by the commit before it, the first from the cursor stored at the start or the pruning point the first connection names, and the last accepting block is that tip |
| `SyncProtocol.RunStart` | indexer-actors/src/virtual_chain_processor.rs:243-302 | Over every run the first sync starts at the cursor stored at the start, or at the first connection's pruning point without one, and nothing later moves that start |
| `SyncProtocol.SyncerStepKeeps` | indexer-actors/src/virtual_chain_syncer.rs:39-112 | Every step of a syncer, current or told to stop, keeps the token invariant and does not panic |
| `SyncProtocol.ResponseKeeps` | indexer-actors/src/virtual_chain_processor.rs:318-380 | Handling a response moves the token to the parked slot, to a Continue, or ends the sync with a Stop |
| `SyncProtocol.StoppedKeeps` | indexer-actors/src/virtual_chain_processor.rs:441-464 | A stop notice ends the processor with an error exactly when it comes from the current syncer |
| `SyncProtocol.ConnectedKeeps` | indexer-actors/src/virtual_chain_processor.rs:220-304 | A connection in any state keeps the invariant, with a new syncer only when no sync is live |
| `SyncProtocol.RealtimeKeeps` | indexer-actors/src/virtual_chain_processor.rs:382-433 | A real-time change keeps the token and moves the tip it commits |
| `SyncProtocol.BlockKeeps` | indexer-actors/src/virtual_chain_processor.rs:682-727 | A processed block keeps the invariant, whether it drains the queue or releases the parked response |
| `Pipeline.ProcessorAgreement` | indexer-actors/src/virtual_chain_processor.rs:139-204 | Acceptance agreement of the processor over its whole life, syncs, drains, outages and restarts, each stretch committing changes that follow from a chain of its own: if every stretch passes the chain the one before it led to, only blocks of the last chain are tracked, their lists are disjoint, and every tracked transaction carries its block and score |
| `Pipeline.RestartAsksAgain` | indexer-actors/src/virtual_chain_processor.rs:229-241 | After any safe life and a crash, the first connection requests the sender of every unresolved transaction accepted on the last chain; when the stretches meet, no other block is tracked |
| `Pipeline.RunStore` | indexer-actors/src/virtual_chain_processor.rs:139-204 | A run of the processor changes the store exactly as the run of the chain changes it commits |
| `Pipeline.CursorOverRun` | indexer-actors/src/virtual_chain_processor.rs:497-507 | Over every run, from any stored cursor, the persisted cursor is the first of greatest blue work among the stored one and the committed tips, replays of older tips included |
| `Cursors.Metadata.SetLatestAcceptingBlockCursor` | indexer-db/src/metadata.rs:80-99 | Comparing 24 big-endian bytes lexicographically advances the cursor exactly when the numeric blue work grows |
| `Cursors.CursorIsFirstGreatest` | indexer-db/src/metadata.rs:80-99 | For any sequence of tips the stored cursor is the first one of greatest work |
| `Cursors.CursorMonotone` | indexer-db/src/metadata.rs:80-99 | The stored work never decreases as tips are added |
| `Cursors.CursorRoundTrip` | indexer-actors/src/virtual_chain_processor.rs:926-951 | A cursor survives the conversion to its stored bytes and back |
| `AcceptanceLog.HistoryRoundTrip` | indexer-db/src/processing/tx_id_to_acceptance.rs:82-201 | For every history of insertions, acceptance updates and resolutions the stored bytes decode to the latest header and to exactly the entries inserted since the last resolution, in order |
| `AcceptanceLog.LogRoundTrip` | indexer-db/src/processing/tx_id_to_acceptance.rs:169-201 | Parsing an encoded log of well-formed entries returns them, for every mix of the seven key sizes |
| `AcceptanceLog.ParseIsInverse` | indexer-db/src/processing/tx_id_to_acceptance.rs:169-201 | Every byte string that parses is the encoding of what it parses to |
| `AcceptanceLog.ReadsExactly` | indexer-db/src/processing/tx_id_to_acceptance.rs:184-199 | Which byte strings read as a log, and which are an error: those that, after any number of entries, have a byte that is no partition id, or no action after a deferred partition's id |
| `AcceptanceLog.HeaderRoundTrip` | indexer-db/src/processing/tx_id_to_acceptance.rs:142-167 | An acceptance header decodes from its bytes whatever follows it |
| `AcceptanceLog.HeaderBytes` | indexer-db/src/processing/tx_id_to_acceptance.rs:32-35 | The header byte for byte: the hash, then the score with its lowest byte first |
| `AcceptanceLog.EntryBytes` | indexer-db/src/processing/tx_id_to_acceptance.rs:59-67 | A log entry byte for byte: the partition's id, the action's, and the key |
| `AcceptanceLog.TxIdToAcceptance.InsertWtx` | indexer-db/src/processing/tx_id_to_acceptance.rs:82-115 | On bytes, insertion creates a zero header or appends, and the abstract record gains exactly the entries |
| `AcceptanceLog.TxIdToAcceptance.UpdateAcceptanceWtx` | indexer-db/src/processing/tx_id_to_acceptance.rs:142-167 | Rewriting the header bytes changes only the header, and the outcome tells missing key, no entries and entries apart |
| `AcceptanceLog.TxIdToAcceptance.ParseEntries` | indexer-db/src/processing/tx_id_to_acceptance.rs:184-199 | The loop over the entry slice, total on all byte strings, agrees with the recursive parser |
| `AcceptanceLog.TxIdToAcceptance.ResolveEntriesWtx` | indexer-db/src/processing/tx_id_to_acceptance.rs:169-201 | Returns exactly the logged entries in order and leaves the header alone in the value |
| `MessageIndexes.DeferredIsEager` | indexer-actors/src/block_processor.rs:548-782 | For every message kind, replaying its deferred entries with a sender writes exactly the keys the eager branch writes for that sender |
| `MessageIndexes.DeferredShape` | indexer-actors/src/block_processor.rs:548-782 | Deferred entries have the key sizes of their partitions and can always be replayed |
| `DeferredReplay.DeferredEqualsEager` | indexer-actors/src/block_processor.rs:548-782 | For every interleaving of sightings, acceptances and resolutions, once all logs are resolved all seven indexes equal those of the same sightings with senders known from the start |
| `DeferredReplay.ResolvedHistory` | indexer-actors/src/virtual_chain_processor.rs:732-890 | Any history followed by one resolution of each transaction with entries ends with the eager indexes |
| `DeferredReplay.RunRelated` | indexer-actors/src/virtual_chain_processor.rs:732-890 | In between, deferred and eager indexes differ exactly by what the logs still hold |
| `DeferredReplay.ReplayAllAt` | indexer-actors/src/virtual_chain_processor.rs:806-880 | What replaying a log does to any one key: inserted or not, and a known sender never overwritten |
| `DeferredReplay.Indexer.HandleTransaction` | indexer-actors/src/block_processor.rs:351-476 | From payload, first input and first output: when a transaction is skipped, refused or panics, and otherwise which sender is found, what is indexed under it, and what is logged without it, in terms that the lemmas of `MessageKeys` turn into partitions and key bytes |
| `MessageKeys.IndexesExactly` | indexer-actors/src/block_processor.rs:351-476 | After every run with all logs resolved, a key is in an index if and only if some message of the run has it: partition, version, alias or scope by what its payload parses to, address, time, block and id at their byte positions, under its first output's address or its true sender; receiver keys hold that sender |
| `MessageKeys.SenderKeysWritten` | indexer-actors/src/block_processor.rs:548-782 | What handling one transaction adds under senders: nothing without a known sender, else exactly its operation's keys, the sender being known if and only if the first input spends output 0 of an indexed transaction |
| `MessageKeys.ReceiverKeysWritten` | indexer-actors/src/block_processor.rs:548-735 | What it adds under receivers: exactly its operation's key, with the sender or zeros as value, and a value that is not zeros stays |
| `MessageKeys.EntriesLogged` | indexer-actors/src/block_processor.rs:548-782 | Which entries it logs without a sender, by partition, action and key bytes |
| `MessageKeys.MessageExactly` | indexer-actors/src/block_processor.rs:364-388 | Exactly when a transaction is no message, refused, or panics for want of an input |
| `MessageKeys.RememberedExactly` | indexer-actors/src/block_processor.rs:379-388 | Over every run sender lookups find exactly the messages handled before |
| `MessageKeys.RecordsExactly` | indexer-actors/src/block_processor.rs:466-475 | Over every run exactly the messages have acceptance records, senders known or not |
| `DeferredReplay.TransactionsIndexed` | indexer-actors/src/block_processor.rs:351-476 | Deferred equals eager for the transactions themselves, each indexed with the sender its lookup finds or none |
| `DeferredReplay.LookupIsTrue` | indexer-actors/src/block_processor.rs:375-388 | Over every run each sender found through the first input's previous transaction is the true sender |
| `DeferredReplay.Indexer.HandleHandshake` | indexer-actors/src/block_processor.rs:548-597 | Writes by receiver always and by sender when known, otherwise defers both writes |
| `DeferredReplay.Indexer.HandleHandshakeV2` | indexer-actors/src/block_processor.rs:599-647 | The same for handshakes of the second version |
| `DeferredReplay.Indexer.HandleContextualMessage` | indexer-actors/src/block_processor.rs:649-684 | Writes or defers the by-sender key with the padded alias |
| `DeferredReplay.Indexer.HandlePayment` | indexer-actors/src/block_processor.rs:686-735 | Writes by receiver always and by sender when known, otherwise defers both writes |
| `DeferredReplay.Indexer.HandleSelfStash` | indexer-actors/src/block_processor.rs:737-782 | Writes or defers the owner and scope keys |
| `DeferredReplay.Indexer.HandleSenderAddress` | indexer-actors/src/virtual_chain_processor.rs:732-890 | Succeeds exactly when the key exists and its entries can be replayed, and then replays them all and empties the log |
| `DeferredReplay.Indexer.InsertByReceiver` | indexer-db/src/messages/handshake.rs:89-108 | First writer of a real sender wins; the default sender is overwritten |
| `GapFilling.CounterExact` | indexer-actors/src/block_processor.rs:85-318 | Over every run whose first connection opens no gap to a target already recorded, the counter equals the fillers whose terminal message is unhandled, is never negative, and the worker exits if and only if it was told to shut down and all have reported |
| `GapFilling.GapsFilled` | indexer-actors/src/block_processor.rs:85-318 | Over every run with distinct targets: handled blocks have stored headers, a recorded gap starts at the last of them, and a gap is removed only once its target was handled and stored |
| `GapFilling.HeadersExactly` | indexer-actors/src/block_processor.rs:85-318 | Over every run the stored headers are exactly those of before, of notified blocks, and of the blocks handled for fillers |
| `GapFilling.ReconnectCovers` | indexer-actors/src/block_processor.rs:120-142 | A reconnection opens a gap if and only if a block was notified since the connection before it, and then from the last such block to the new sink |
| `GapFilling.SecondOutageUncovered` | indexer-actors/src/block_processor.rs:120-142 | A second connection with no block in between changes nothing, whatever its sink |
| `GapFilling.SecondOutageLost` | indexer-actors/src/block_processor.rs:490-521 | What a restart fetches after such an outage: gaps recorded before it, and one gap that spans the outage if and only if no block was notified since; otherwise that gap starts from the last block notified |
| `GapFilling.RestartCovers` | indexer-actors/src/block_processor.rs:490-521 | A restart starts exactly a filler for every recorded gap and, unless the last block ever notified is the sink, one from that block or the pruning point to the sink, which it records |
| `GapFilling.InterruptsExactly` | indexer-actors/src/block_processor.rs:144-167 | Over every run with distinct targets a disconnect or shutdown interrupts exactly the unsettled fillers started since the one before it |
| `GapFilling.ConnectCounts` | indexer-actors/src/block_processor.rs:490-521 | A connection keeps the count if and only if it does not open a gap to a target already recorded |
| `GapFilling.CounterUnderflows` | indexer-actors/src/block_processor.rs:490-521 | A concrete run that takes the counter to -1 |
| `GapFilling.HandleCounts` | indexer-actors/src/block_processor.rs:85-318 | Handling a terminal message finds the counter above zero and keeps it exact |
| `GapFilling.HandledKept` | indexer-actors/src/block_processor.rs:85-318 | A handled batch moves the recorded gap to its last block, or removes it when the batch holds the target |
| `GapFilling.StepKeeps` | indexer-actors/src/block_processor.rs:85-318 | Every step of worker, fillers and channel keeps headers and recorded gaps consistent |
| `GapFilling.Sync` | indexer-actors/src/block_gap_filler.rs:35-122 | The filler's loop sends and asks for what the recursive description says, for every sequence of outcomes |
| `GapFilling.FillerSends` | indexer-actors/src/block_gap_filler.rs:35-122 | The filler passes on exactly the batches fetched before the turn that ends it, and then reports the interrupt, the node error, or the batch holding the target; it reports nothing exactly when the response was lost, the batch was empty, or it still runs |
| `GapFilling.FillerAsks` | indexer-actors/src/block_gap_filler.rs:69-76 | It asks once a turn, except at an interrupt, each time from the last block fetched so far |
| `GapFilling.FillerReports` | indexer-actors/src/block_gap_filler.rs:35-122 | A filler sends batches in order with at most one terminal message, last, and asks only from its start or from blocks it has delivered |
| `GapFilling.BlockWorker.HandleConnected` | indexer-actors/src/block_processor.rs:490-521 | Which fillers a first and a later connection start, and which gap they record |
| `GapFilling.BlockWorker.HandleNotification` | indexer-actors/src/block_processor.rs:168-191 | A notified block is stored and becomes the last block and the stored cursor |
| `GapFilling.BlockWorker.HandleProgress` | indexer-actors/src/block_processor.rs:85-318 | Every progress message does what the recursive account of the worker says; terminal ones release the handle |
| `GapFilling.BlockWorker.StoreBatch` | indexer-actors/src/block_processor.rs:85-318 | The loop over a batch stores every block and leaves the gap at the last one, or removed when the batch finishes it |
| `KeyScan.RangeScan` | indexer-db/src/messages/handshake.rs:48-63 | The contiguous part between the constructed byte bounds holds exactly the keys with the prefix and a time in range, below 2^64 - 1, in non-decreasing time order |
| `KeyScan.RangeIsWithin` | indexer-db/src/messages/handshake.rs:59-62 | In a sorted partition the part from the first key not below the lower bound to the first beyond the upper holds exactly the keys within bounds |
| `KeyScan.AddressScans` | indexer-db/src/messages/payment.rs:39-59 | In terms of the messages stored: exactly those of the address from the given time on |
| `KeyScan.AliasScan` | indexer-db/src/messages/contextual_message.rs:81-104 | Exactly the messages of the sender whose padded alias is the given one |
| `KeyScan.ScopeScans` | indexer-db/src/messages/self_stash.rs:63-92 | Exactly the stashes whose padded scope is the padded scope asked for, by owner and by scope |
| `KeyScan.PaddedAlike` | indexer-db/src/messages/self_stash.rs:16-23 | Which aliases and scopes padding identifies: those alike on their first bytes with missing bytes read as zero |
| `KeyScan.AddressKeysIdentify` | indexer-db/src/messages/handshake.rs:14-21 | Two handshakes or payments share a key if and only if they agree on every field of it |
| `KeyScan.ContextualKeysIdentify` | indexer-db/src/messages/contextual_message.rs:20-28 | The same for contextual messages, the alias up to padding |
| `KeyScan.OwnerKeysIdentify` | indexer-db/src/messages/self_stash.rs:25-37 | The same for self-stashes by owner, the scope up to padding |
| `KeyScan.ScopeKeysIdentify` | indexer-db/src/messages/self_stash.rs:100-107 | The same for self-stashes by scope |
| `DaaIndex.AgreeMeans` | indexer-db/src/headers/daa_index.rs:38-55 | Agreement says: (score, big-endian work, hash) is an index key if and only if the header table maps the hash to that work and score |
| `DaaIndex.HeaderStore.HandleBlock` | indexer-actors/src/block_processor.rs:328-341 | Storing a block keeps agreement and tells whether it was stored before |
| `DaaIndex.StoredRoundTrip` | indexer-db/src/headers/block_compact_headers.rs:34-54 | Work and score read back from a stored header are those block handling was given |
| `DaaIndex.HeaderStore.Prune` | indexer-actors/src/periodic_processor.rs:83-108 | Pruning keeps agreement and removes exactly the blocks deeper than the pruning depth, from all three partitions |
| `DaaIndex.BelowIsDaa` | indexer-db/src/headers/daa_index.rs:70-84 | The lexicographic bound of the range read is the numeric bound on the score |
| `DaaIndex.PruneInterleaved` | indexer-actors/src/periodic_processor.rs:83-108 | Over all six orders of the two writes of storing a block and the two deletions of pruning one: agreement is lost if and only if the block being pruned is stored with both writes between the deletions |
| `DaaIndex.Migration.MigrateV0V1` | indexer-db/src/migration.rs:39-119 | The batched migration over a key snapshot equals replacing the keys one by one, fails exactly on a key of the wrong size, and then has migrated the full batches before it |
| `DaaIndex.MigratedKeys` | indexer-db/src/migration.rs:39-119 | Which keys the migrated index holds |
| `DaaIndex.MigrationAgrees` | indexer-db/src/migration.rs:39-119 | Migrating an index that agrees in the old layout yields exactly the keys block handling would have written |
| `DaaIndex.RerunsExactly` | indexer-db/src/migration.rs:39-119 | After some keys have been migrated, the migration can be run again if and only if none of them belonged to a stored block |
| `DaaIndex.InterruptedKeyLost` | indexer-db/src/migration.rs:83-107 | Interrupted between deletion and insertion, the key is missing even after a rerun that succeeds |
| `DaaIndex.ConvertBlueworkEndianness` | indexer-db/src/migration.rs:121-125 | The in-place swap loop reverses the 24 bytes |
| `Scalar256.BytesGe` | indexer/src/bin/openclaw_kbeam_crypto.rs:562-572 | The byte-wise comparison is the numeric one |
| `Scalar256.AddBytes` | indexer/src/bin/openclaw_kbeam_crypto.rs:532-542 | The carry loop computes the exact 257-bit sum |
| `Scalar256.SubtractInPlace` | indexer/src/bin/openclaw_kbeam_crypto.rs:543-558 | The borrow loop subtracts in place, with the final borrow worth 2^256 |
| `Scalar256.AddModN` | indexer/src/bin/openclaw_kbeam_crypto.rs:532-560 | The result's value: the sum, less the order once when it is not below it |
| `Scalar256.ReducedIsModular` | indexer/src/bin/openclaw_kbeam_crypto.rs:532-560 | For every sum of two 256-bit numbers: congruent modulo n if and only if below 2^256 + n, fully reduced if and only if below 2n |
| `Scalar256.AddModNMeans` | indexer/src/bin/openclaw_kbeam_crypto.rs:532-560 | With one operand below n the result is congruent to the sum, with both it is the sum modulo n |
| `Scalar256.OrderValue` | indexer/src/bin/openclaw_kbeam_crypto.rs:688-693 | The constant's bytes are the order of secp256k1 |
| `Scalar256.PathIsSum` | indexer/src/bin/openclaw_kbeam_crypto.rs:507-530 | On byte keys, along any path of hardened and plain steps whose hashes are below n, the derived key is the master key plus all hashes modulo n |
| `Scalar256.DeriveChildKey` | indexer/src/bin/openclaw_kbeam_crypto.rs:507-530 | One derivation step on bytes: fails exactly for a plain index under a key the curve library refuses, and otherwise tweaks the key by the hash |
| `Scalar256.ChildInFields` | indexer/src/bin/openclaw_kbeam_crypto.rs:507-530 | The step in the terms of BIP-32: what is hashed for a hardened and a plain index, byte for byte, what becomes key and chain code, and exactly when it fails |
| `GiftClaims.GiftSlots` | indexer/src/gift.rs:578-631 | Under every interleaving of claims: one slot-consuming record per wallet and per device, and no two claims that were ever paid share a wallet or a device |
| `GiftClaims.MayClaimExactly` | indexer/src/gift.rs:578-631 | After every interleaving a new claim is granted if and only if each claim ever granted to its wallet or device had its payout fail and the failure written back |
| `GiftClaims.RecordsTell` | indexer/src/gift.rs:590-631 | After every interleaving a recorded transaction id is one the payout returned for that claim, and the record of a claim that ended without being dropped is completed, failed and paid exactly as its lock and payout went |
| `GiftClaims.FailedMayClaimAgain` | indexer/src/gift.rs:594-600 | A reservation, a failed payout and its write-back leave wallet and device free to claim again |
| `GiftClaims.StepKeeps` | indexer/src/gift.rs:578-631 | Reservation, payout, device lock, write-back and abandonment each keep every paid claim in its slot |
| `GiftClaims.ClaimTable.ReserveClaim` | indexer/src/gift.rs:676-727 | Refuses if and only if a claim of the wallet, else of the device, has a transaction id or is reserved, submitted or completed, and otherwise reserves |
| `GiftClaims.ClaimTable.PersistClaim` | indexer/src/gift.rs:729-738 | A claim's own record replaces what is stored under its id, as the write-back step of the protocol does |
| `GiftClaims.ClaimTable.Blocked` | indexer/src/gift.rs:676-727 | The search loop finds a claim that was paid, or is reserved, submitted or completed, if and only if there is one |
| `PushScope.ContextualScope` | indexer/src/push.rs:785-910 | All APNs and FCM targets of one event, looked up and sorted separately, belong to one deciding wallet that is not the sender; among several wallets only one ahead of all others by the margin |
| `PushScope.DecidingExactly` | indexer/src/push.rs:799-834 | Which registrations decide the wallet: those with the alias in their wallet's inbox or on a route from the sender, not the sender's by wallet or primary address, and the receiver's whenever some such registration is |
| `PushScope.TargetsExactly` | indexer/src/push.rs:866-884 | Which registrations are targets: those of the scoped wallet and token type, for the configured app if APNs, with the alias in their wallet's inbox or on a route from the sender |
| `PushScope.OrderIndependent` | indexer/src/push.rs:785-910 | The targets do not depend on the order the registrations are iterated in, nor on how the sort breaks ties |
| `PushScope.FreshestIsBeats` | indexer/src/push.rs:2184-2208 | For every sorted list: the decision is right if and only if the addition of the margin does not saturate at a first update of 2^64 - 1 |
| `PushScope.TieAtTheEnd` | indexer/src/push.rs:2184-2208 | Two updates of 2^64 - 1 between which the order of the list decides |
| `PushScope.FreshestContextualWallet` | indexer/src/push.rs:2184-2208 | For all updates, the wallet it returns leads every other by the margin in saturating addition, and it returns none only if no wallet does; clear of the end of the range that wallet is unique |
| `PushScope.CollectUpdates` | indexer/src/push.rs:2184-2208 | The loop collects the newest update of each wallet |
| `Parser.RoundTrip` | protocol/src/operation/deserializer.rs:10-107 | An operation survives encoding and parsing if and only if its fields keep clear of the delimiters |
| `Parser.Grammar` | protocol/src/operation/deserializer.rs:7-107 | For every payload and operation: the payload parses to it if and only if it is its spelling, tags written out, delimiters included, both payment tags allowed |
| `Parser.ParseThenEncode` | protocol/src/operation/deserializer.rs:10-107 | Every payload that parses is the encoding of its operation if and only if it does not use the legacy payment tag, and that encoding parses back to the same operation |
| `Parser.TagOfTagged` | protocol/src/operation/deserializer.rs:24-92 | Whatever follows a tag, the body is recognised by that tag |
| `Bytes.LexIsNumeric` | indexer-db/src/metadata.rs:91-95 | Lexicographic order of equally long big-endian strings is numeric order |

## Left out

- SyncProtocol.AckProtocol: stated up to shutdown, because a shutdown may end the processor with an error while a response is in flight.
- DaaIndex.HeaderStore.HandleBlock: requires a block stored before to come with the same header, since the hash determines it; the rest of block handling is in the other modules.
- DaaIndex.HeaderStore.Prune: runs without a block in between; blocks stored meanwhile are the subject of PruneInterleaved.
- AcceptanceLog.TxIdToAcceptance.InsertWtx: requires at most one key per transaction id, because the id determines the receiver in the key.
- PushScope.FreshestContextualWallet: the library sort is a parameter that lists the map in descending order.
- KeyScan.RangeScan: the partition is a sorted list of keys and a range read its contiguous part; the store's own segments and iterators are not modelled.
- Pipeline.ProcessorAgreement: that the chain a sync ends on is one the queued changes pass is taken from the node; CatchUp.LeftOver shows a life without it.
- The seven message partitions are one tagged map and one tagged set; the partitions from transaction id to payload are not modelled.
- How the cache is filled from stored headers at start; runs begin with any cache.
- The store's internals, conflict detection and commit retries: a write transaction is one step.
- Liveness: syncers and fillers may wait for ever.
- The RPC client, reconnection timing and request forwarding of indexer-actors/src/data_source.rs.
- Syncer ids and counters are unbounded numbers; blocking on a full progress channel is not modelled.
- Gift challenges, rate limits and snapshot files, and the foreign calls whose outcomes are arbitrary here.
- Push branches for messages without an alias, and delivery itself.
- The board API, HTTP handlers, configuration, metrics and logging.
- Cryptographic primitives and fee estimation.

# Durable Bitcoin state of the wallet, modelled in Dafny

This project models the durable state of the Bitcoin side of the wallet and
proves what it keeps across crashes, concurrent writers, reorganizations and
damaged records. Everything stands on one compare-and-swap record store:
a save succeeds only at the stored revision, and a batch is all or nothing.

| component | files | main results |
|---|---|---|
| record store | `RecordStore.dfy` | batches, one winner per revision |
| changeset journal | `Journal.dfy`, `JournalRuns.dfy`, `JournalPersister.dfy` | `CrashRecovery`, `OneWriterWins`, `PersistIsARun` |
| broadcast records | `Broadcast.dfy`, `BroadcastJournal.dfy`, `BroadcastOrder.dfy`, `BroadcastReservations.dfy`, `BroadcastAbandon.dfy`, `BroadcastPackage.dfy`, `BroadcastPrefix.dfy`, `BroadcastRuntime.dfy` | `SubmissionsAreBounded`, `ApprovedOrder`, `RunDisjointIff`, `PackageLife`, `RunPrefixIff` |
| HTLC watches | `Watch.dfy`, `WatchRuns.dfy`, `WatchStore.dfy` | `IncrementalEqualsRescan`, `RestartIsSame` |
| recovery scan | `GapScan.dfy`, `GapScanUpdates.dfy` | `ScanReachesFixpoint`, `PassesAreBounded`, `NextReturnClosesIff` |
| sync cache | `FilterFraming.dfy`, `SyncCache.dfy`, `SyncCacheLogs.dfy`, `SyncCacheEpochs.dfy` | `AppendRefines`, `RetirementIsSound` |
| swap keys | `SwapKeys.dfy` | `AllocationIsDense`, `LoadsForever` |
| recovery publication | `Publication.dfy`, `Discovery.dfy` | `AcceptedIffPublished`, `DiscoveryInvertsConstruction` |

State that the program updates in place is a class or a store object whose
methods are proved equal to functions of the old state; whole runs are sequences
of actions over those functions. Where a call is interrupted or interleaved, each
durable write is its own action.

Hashes, transaction ids and derived keys are injective constructors. Clocks, the
network, the chain, the contents of blocks and what libraries decide about
scripts and signatures are parameters.

## Where the code does not do what one might expect

Each of these is a lemma with a concrete case, beside the exact condition under
which the expected property holds.

- A new account whose first changeset does not name both descriptors and the
  network cannot be loaded afterwards (`JournalRuns.NamelessFirstChangesetIsFatal`;
  exact condition in `JournalRuns.CrashRecovery` and `JournalRuns.CompleteWhenNamed`).
- Approving again a transaction whose approval was dropped skips the overlap
  test, so one input can be committed twice, after which every new approval is
  refused (`BroadcastReservations.ReapprovalCommitsTwice`,
  `BroadcastReservations.SharedInputBlocksApprovals`; exact condition in
  `BroadcastReservations.RunDisjointIff`).
- The committed members of a package are not always a prefix. A package whose
  commit stopped before the funding transaction is dropped from the front after
  expiry (`BroadcastPrefix.StoppedCommitLosesPrefix`), and a pass that is under way
  at expiry drops the next member with the funding still committed
  (`BroadcastPrefix.ExpiryInsidePassLeavesGap`). Exact condition in
  `BroadcastPrefix.StepPrefixIff` and `BroadcastPrefix.RunPrefixIff`; the second
  gap is closed by the next pass (`BroadcastPrefix.NextPassRestores`).
- An expired package that spends an ordinary approved transaction never attempted
  makes abandonment fail, and no resume pass starts until that changes
  (`BroadcastAbandon.OrdinaryAncestorStopsAbandonment`,
  `BroadcastPackage.NoPassWhileBlocked`; exact condition in
  `BroadcastAbandon.AbandonExpired`).
- A later `update` of one subscriber can return without having fetched a block
  within the gap (`GapScanUpdates.SecondUpdateMissesBlock`; exact condition in
  `GapScanUpdates.NextReturnClosesIff`, simpler ones in
  `GapScanUpdates.FamiliarClosesIff` and `GapScanUpdates.CallerCheck`).
- A cache stream is not always a prefix of the batches offered to it, although a
  comment beside the byte test suggests so (`SyncCacheLogs.StreamIsNotAlwaysAPrefix`;
  exact condition in `SyncCacheLogs.StreamIsPrefixIff`).
- A cache that lost its head record while two or more other records remain is
  never retired (`SyncCacheEpochs.LostHeadIsStuck`; exact condition in
  `SyncCacheEpochs.LostHead`).
- A load of swap keys calls the store corrupt when another allocator commits
  between two of its reads (`SwapKeys.FirstCommitReadsCorrupt`; exact conditions in
  `SwapKeys.SplitHighLoad` and `SwapKeys.SplitLoad`).

## Model

| member | source | states |
|---|---|---|
| RecordStore.Written | crates/hns-wallet-store/src/lib.rs:4129-4227 | an accepted batch leaves every saved record at its value one revision up and every record it does not name as it was |
| RecordStore.BatchEffect | crates/hns-wallet-store/src/lib.rs:2520-2541 | a batch is all or nothing: exactly its saves, exactly its deletes, nothing else |
| RecordStore.OneWinner | crates/hns-wallet-store/src/lib.rs:4129-4227 | of two batches prepared against one revision of a record, the second to arrive is refused |
| RecordStore.WalletStore.Apply | crates/hns-wallet-store/src/lib.rs:2520-2541 | one transaction on the shared store: the batch, or no change and the reason |
| RecordStore.WalletStore.SaveOne | crates/hns-wallet-store/src/lib.rs:1439-1499 | a compare-and-swap save: stored at expected + 1, or stale and unchanged |
| Journal.AppendIsBatch | crates/hns-wallet-bitcoin-kyoto/src/persistence.rs:523-543 | the head and the delta of one append are a single batch, refused whole when the head moved or the sequence exists |
| Journal.LoadRecoversFold | crates/hns-wallet-bitcoin-kyoto/src/persistence.rs:201-305 | whatever durable prefix a crash left, loading succeeds if and only if at most 4096 deltas are stored and the account is new or its aggregate is complete, and returns the fold of all committed changesets with the next sequence and the uncompacted count |
| Journal.RowsRecoverFold | crates/hns-wallet-bitcoin-kyoto/src/persistence.rs:234-299 | the same for any ordered listing of the journal rows |
| Journal.FieldsKept | crates/hns-wallet-bitcoin-kyoto/src/persistence.rs:307-331 | an immutable field named in a prefix of an accepted log has that value in every longer log |
| JournalRuns.StepKeeps | crates/hns-wallet-bitcoin-kyoto/src/persistence.rs:373-459 | every append, snapshot, listing, prune, reload, opening and crash keeps the meaning of the journal for all writers; the log only grows, the compacted sequence never goes back and a pruned sequence is never reused |
| JournalRuns.RunKeeps | crates/hns-wallet-bitcoin-kyoto/src/persistence.rs:477-576 | the same over every interleaving of writers and crashes |
| JournalRuns.CrashRecovery | crates/hns-wallet-bitcoin-kyoto/src/persistence.rs:201-305 | over every run from a new or legacy account with crashes between any two durable writes, loading returns the left fold of the committed changesets, failing exactly past 4096 deltas or when the aggregate is incomplete |
| JournalRuns.CompleteWhenNamed | crates/hns-wallet-bitcoin-kyoto/src/persistence.rs:57-76 | the aggregate is complete if and only if the base or some committed changeset named each of both descriptors and the network |
| JournalRuns.NamelessFirstChangesetIsFatal | crates/hns-wallet-bitcoin-kyoto/src/persistence.rs:477-546 | a counterexample to unconditional recovery: one persisted first changeset without all three fields makes the account unloadable |
| JournalRuns.CurrentHeadIsCurrentState | crates/hns-wallet-bitcoin-kyoto/src/persistence.rs:496-546 | the head revision is the number of committed changesets; a writer whose cached head is current holds the durable aggregate, and only such a writer appends |
| JournalRuns.OneWriterWins | crates/hns-wallet-bitcoin-kyoto/src/persistence.rs:523-576 | of two writers from one head at most one appends, whatever happens between |
| JournalRuns.RetryIsANoOp | crates/hns-wallet-bitcoin-kyoto/src/persistence.rs:333-371 | an accepted exact retry writes nothing and ends with the durable aggregate, equal to its own candidate |
| JournalRuns.ImmutableFieldsNeverChange | crates/hns-wallet-bitcoin-kyoto/src/persistence.rs:307-331 | descriptors and network never change once named, over any run |
| JournalPersister.Persister.ReplayRows | crates/hns-wallet-bitcoin-kyoto/src/persistence.rs:234-299 | the replay loop computes the row-by-row replay |
| JournalPersister.Persister.Load | crates/hns-wallet-bitcoin-kyoto/src/persistence.rs:201-305 | loading from the store object is the load the recovery theorem is about |
| JournalPersister.Persister.Initialize | crates/hns-wallet-bitcoin-kyoto/src/persistence.rs:465-475 | the cached state is the loaded one, or none after a failed load |
| JournalPersister.Persister.AcceptExactRetry | crates/hns-wallet-bitcoin-kyoto/src/persistence.rs:333-371 | the retry outcome by the durable record at the cached next sequence and a reload |
| JournalPersister.Persister.Compact | crates/hns-wallet-bitcoin-kyoto/src/persistence.rs:373-459 | snapshot, then prune, with the state after each failure |
| JournalPersister.Persister.Persist | crates/hns-wallet-bitcoin-kyoto/src/persistence.rs:477-576 | append then compact, or the retry path; the whole new store and cache |
| JournalPersister.PersistIsARun | crates/hns-wallet-bitcoin-kyoto/src/persistence.rs:477-576 | one persist call is a run of the interleaved machine, so the theorems about runs hold of it |
| JournalPersister.PersistSucceeds | crates/hns-wallet-bitcoin-kyoto/src/persistence.rs:477-576 | a persist that succeeds holds its changeset merged in, and what it then caches is the durable aggregate |
| BroadcastOrder.DropBlocked | crates/hns-wallet-bitcoin-kyoto/src/runtime.rs:2931-2958 | the transactions left are exactly those with no exhausted ancestor reached through resumable ones |
| BroadcastOrder.ApprovedOrder | crates/hns-wallet-bitcoin-kyoto/src/runtime.rs:2909-2983 | exactly the free resumable transactions, once each, parents first; an error for an invalid record, and otherwise exactly when the free ones form a cycle |
| BroadcastOrder.StuckIsCyclic | crates/hns-wallet-bitcoin-kyoto/src/runtime.rs:2959-2981 | when no pending transaction is ready, there is a dependency cycle among the free ones |
| BroadcastOrder.OrderIsAcyclic | crates/hns-wallet-bitcoin-kyoto/src/runtime.rs:2959-2981 | an order with parents first exists only if there is no cycle |
| BroadcastOrder.ResumePass | crates/hns-wallet-bitcoin-kyoto/src/runtime.rs:2733-2779 | a transaction is submitted only after every resumable parent succeeded in the same pass, each once; unless a submission fails for good, one is held back only when some parent did not succeed |
| BroadcastJournal.SubmitsExactlyWhen | crates/hns-wallet-bitcoin-kyoto/src/runtime.rs:3028-3118 | a submission starts if and only if the transaction is approved on this network, unobserved, prepared, not an expired publication, sent fewer than 16 times and not within the last 60 seconds |
| BroadcastJournal.ApprovesExactlyWhen | crates/hns-wallet-bitcoin-kyoto/src/runtime.rs:4035-4168 | a transaction without a live approval is approved if and only if lifetime, fee cap, revision, overlap test and stored ids and fee allow it |
| BroadcastJournal.ReapprovalIsIdempotent | crates/hns-wallet-bitcoin-kyoto/src/runtime.rs:4108-4128 | a live approval accepts only the same bytes and commitment, and writes nothing |
| BroadcastJournal.StepKeeps | crates/hns-wallet-bitcoin-kyoto/src/runtime.rs:3207-3287 | approval, submission, completion, expiry and reconciliation keep every record valid and its attempts and times equal to the history of sends |
| BroadcastJournal.SubmissionsAreBounded | crates/hns-wallet-bitcoin-kyoto/src/runtime.rs:3086-3112 | over every run a transaction is sent at most 16 times, consecutive sends at least 60 seconds apart, and its record stays valid |
| BroadcastJournal.AttemptedIsForever | crates/hns-wallet-bitcoin-kyoto/src/runtime.rs:4473-4528 | once sent, no later run changes or drops the signed bytes, fee, times of approval or commitment |
| BroadcastReservations.Collect | crates/hns-wallet-bitcoin-kyoto/src/runtime.rs:3679-3712 | the collected inputs are exactly those of approved unobserved records; it succeeds if and only if all records are readable and no input is committed twice |
| BroadcastReservations.TakeInputs | crates/hns-wallet-bitcoin-kyoto/src/runtime.rs:3703-3709 | inserts every input unless one repeats or is already there |
| BroadcastReservations.StepDisjointIff | crates/hns-wallet-bitcoin-kyoto/src/runtime.rs:4061-4081 | a step keeps reserved inputs pairwise disjoint if and only if an allowed re-approval of a dropped record, or the return of an observed one, finds its inputs clear in the state before |
| BroadcastReservations.RunDisjointIff | crates/hns-wallet-bitcoin-kyoto/src/runtime.rs:4539-4555 | over a whole run no input is committed twice if and only if every such step was clear |
| BroadcastReservations.ReapprovalCommitsTwice | crates/hns-wallet-bitcoin-kyoto/src/runtime.rs:4061-4081 | a run in which a publication is dropped at its expiry, its input is approved for another transaction and its own re-approval skips the overlap test: one input is committed twice, although every approval made its test on the stored records |
| BroadcastReservations.SharedInputBlocksApprovals | crates/hns-wallet-bitcoin-kyoto/src/runtime.rs:4064-4080 | after that no transaction without a record can be approved |
| BroadcastReservations.UnspentInputsStayApart | crates/hns-wallet-bitcoin-kyoto/src/runtime.rs:4539-4555 | when approvals take only inputs no approved transaction spends, no run with any reorganizations commits an input twice |
| BroadcastAbandon.Walk | crates/hns-wallet-bitcoin-kyoto/src/runtime.rs:2844-2883 | the breadth-first walk finds exactly the records reached from expired funding through untouched parents, and gives up exactly when one of them publishes nothing |
| BroadcastAbandon.AbandonExpired | crates/hns-wallet-bitcoin-kyoto/src/runtime.rs:2793-2907 | drops exactly those records in one batch, or changes nothing; fails exactly on capacity, an unsound record, a foreign network or an ordinary untouched ancestor |
| BroadcastAbandon.OrdinaryParentBlocks | crates/hns-wallet-bitcoin-kyoto/src/runtime.rs:2866-2872 | from the expiry of the funding on, an untouched ordinary parent makes abandonment fail at every later time |
| BroadcastAbandon.OrdinaryAncestorStopsAbandonment | crates/hns-wallet-bitcoin-kyoto/src/runtime.rs:2866-2872 | a run that gets there: the parent is seen confirmed without an attempt, the package spends it, and a reorganization takes it out |
| BroadcastPackage.StepKeeps | crates/hns-wallet-bitcoin-kyoto/src/recovery_publication.rs:180-277 | commits stopped anywhere, resume passes, completions, observations, expiry and outside activity keep the package invariant |
| BroadcastPackage.PackageLife | crates/hns-wallet-bitcoin-kyoto/src/recovery_publication.rs:180-277 | over every run, with the time read anew for each submission, the attempted members are a prefix, the committed ones are a prefix until expiry, and no member is sent at or after its expiry |
| BroadcastPackage.AbandonClearsSuffix | crates/hns-wallet-bitcoin-kyoto/src/runtime.rs:2793-2907 | expiry of a package with its funding committed clears exactly the unattempted members, even after a submission dropped one; with the funding not committed, or before expiry, nothing is lost |
| BroadcastPackage.NoPassWhileBlocked | crates/hns-wallet-bitcoin-kyoto/src/runtime.rs:2733-2757 | no resume pass starts while abandonment fails |
| BroadcastPrefix.StepPrefixIff | crates/hns-wallet-bitcoin-kyoto/src/runtime.rs:3061-3085 | a step keeps the committed members a prefix if and only if it is not the submission of an expired pending member whose successor is committed |
| BroadcastPrefix.RunPrefixIff | crates/hns-wallet-bitcoin-kyoto/src/recovery_publication.rs:180-277 | over a whole run the committed members are always a prefix if and only if no such submission occurs |
| BroadcastPrefix.WholeForever | crates/hns-wallet-bitcoin-kyoto/src/recovery_publication.rs:180-277 | once the funding transaction is committed, for ever after the committed members are a prefix up to one gap, with everything before it attempted and everything after it committed |
| BroadcastPrefix.NextPassRestores | crates/hns-wallet-bitcoin-kyoto/src/runtime.rs:2733-2757 | the start of the next resume pass makes the committed members a prefix again |
| BroadcastPrefix.StoppedCommitLosesPrefix | crates/hns-wallet-bitcoin-kyoto/src/runtime.rs:3061-3085 | a counterexample: a commit stopped before the funding, then expiry, drops the first member and keeps the second |
| BroadcastPrefix.ExpiryInsidePassLeavesGap | crates/hns-wallet-bitcoin-kyoto/src/runtime.rs:2679-2685 | another: a pass begun before expiry reaches a middle member at expiry and drops it, with the funding committed |
| BroadcastPrefix.DropKeepsPrefixIff | crates/hns-wallet-bitcoin-kyoto/src/runtime.rs:3061-3085 | dropping an expired member at submission keeps the prefix if and only if the next member is not committed |
| BroadcastPackage.PassIsAllowed | crates/hns-wallet-bitcoin-kyoto/src/runtime.rs:2733-2779 | every submission of a resume pass is one the package model allows at that point |
| BroadcastRuntime.PersistApproved | crates/hns-wallet-bitcoin-kyoto/src/runtime.rs:4035-4168 | the approval on the store object, with the overlap test made over the stored records |
| BroadcastRuntime.BeginSubmission | crates/hns-wallet-bitcoin-kyoto/src/runtime.rs:3028-3118 | the attempt is stored before it is sent; the store after each outcome |
| BroadcastRuntime.StartResume | crates/hns-wallet-bitcoin-kyoto/src/runtime.rs:2738-2755 | abandonment, then the order of what is left; a failing abandonment ends the pass with the store unchanged |
| BroadcastRuntime.UnderTestsHonest | crates/hns-wallet-bitcoin-kyoto/src/runtime.rs:4061-4081 | both approvals of the run that stops abandonment passed the overlap test of the stored records |
| BroadcastRuntime.ReconcileRecords | crates/hns-wallet-bitcoin-kyoto/src/runtime.rs:4423-4560 | exactly the records that disagree with the wallet view are rewritten, across the chunked writes; fails exactly on capacity or an unsound record |
| BroadcastRuntime.ReconcileIsIdempotent | crates/hns-wallet-bitcoin-kyoto/src/runtime.rs:4473-4555 | reconciling again with the same view finds nothing to write |
| Watch.VerifyFunding | crates/hns-wallet-bitcoin-kyoto/src/lib.rs:880-913 | the one output that pays the contract, or an error when there is none or more than one |
| Watch.VerifySpend | crates/hns-wallet-bitcoin-kyoto/src/lib.rs:1739-1858 | an accepted spend has one input on the outpoint whose witness proves the branch, and a revealed preimage hashes to the hashlock |
| Watch.Candidates | crates/hns-wallet-bitcoin-kyoto/src/swap_watch.rs:454-565 | the nested candidate loops collect the observations of all touching transactions in order, or the first error |
| Watch.OneInBlocks | crates/hns-wallet-bitcoin-kyoto/src/swap_watch.rs:454-565 | exactly one touching transaction gives exactly its observation |
| WatchRuns.Scan | crates/hns-wallet-bitcoin-kyoto/src/swap_watch.rs:454-565 | scanning matched blocks finds what the chain holds, given every touching block above the fork |
| WatchRuns.ReconcileMatches | crates/hns-wallet-bitcoin-kyoto/src/swap_watch.rs:376-450 | a watch that agrees with the old chain is accepted and agrees with the new one |
| WatchRuns.IncrementalEqualsRescan | crates/hns-wallet-bitcoin-kyoto/src/swap_watch.rs:349-452 | after any run over reorganizations, funding and spend equal those of one scan of the last chain from the registered height |
| WatchRuns.PreimageIsForever | crates/hns-wallet-bitcoin-kyoto/src/swap_watch.rs:405-424 | no run of updates whatsoever loses or changes a revealed preimage |
| WatchRuns.SettlesExactlyOnChain | crates/hns-wallet-bitcoin-kyoto/src/swap_watch.rs:160-202 | a lock is given exactly at the reconciled checkpoint when the funding is deep enough on the chain, and a spend exactly when the chain holds one |
| WatchStore.FindFunding | crates/hns-wallet-bitcoin-kyoto/src/swap_watch.rs:377-401 | drops what the chain contradicts and adds the only candidate, and says whether anything changed |
| WatchStore.FindSpend | crates/hns-wallet-bitcoin-kyoto/src/swap_watch.rs:402-424 | adds the only spend of a known funding and its preimage, and says whether anything changed |
| WatchStore.Settle | crates/hns-wallet-bitcoin-kyoto/src/swap_watch.rs:425-440 | recounts confirmations, moves the checkpoint and validates |
| WatchStore.ReconcileOne | crates/hns-wallet-bitcoin-kyoto/src/swap_watch.rs:376-450 | the loop body; the changed flag is set exactly when the watch differs |
| WatchStore.ReconcileWatches | crates/hns-wallet-bitcoin-kyoto/src/swap_watch.rs:349-452 | the whole call on the store: every error before a write leaves it alone, otherwise the watches are updated in order up to the first error |
| WatchStore.ReconcileTwice | crates/hns-wallet-bitcoin-kyoto/src/swap_watch.rs:376-450 | repeating with the same inputs changes nothing |
| WatchStore.RestartIsSame | crates/hns-wallet-bitcoin-kyoto/src/swap_watch.rs:376-450 | a run stopped at any watch and repeated ends in the same store, revisions included, with the same answer |
| WatchStore.StaysLoadable | crates/hns-wallet-bitcoin-kyoto/src/swap_watch.rs:582-658 | every watch stays valid wherever the run stops |
| GapScan.WalletScripts | crates/hns-wallet-bitcoin-kyoto/src/runtime.rs:1054-1066 | on each keychain exactly the scripts below the revealed count plus the bound |
| GapScan.ExtendedCount | crates/hns-wallet-bitcoin-kyoto/src/runtime.rs:1068-1084 | covers the gap past the highest used index, never shrinks, and fails exactly past 100,000 |
| GapScan.KyotoSubscriber.constructor | crates/hns-wallet-bitcoin-kyoto/src/runtime.rs:1300-1329 | a recovery scan starts from the gap-limit scripts |
| GapScan.KyotoSubscriber.OnFilter | crates/hns-wallet-bitcoin-kyoto/src/runtime.rs:1340-1363 | a matching filter queues its block once, tested for the scripts that height needs |
| GapScan.KyotoSubscriber.OnEvent | crates/hns-wallet-bitcoin-kyoto/src/runtime.rs:1251-1257 | a reorganization or a block at a covered height ends the shortcut |
| GapScan.KyotoSubscriber.OnSynced | crates/hns-wallet-bitcoin-kyoto/src/runtime.rs:1365-1488 | queued blocks are fetched one by one, then rescan, extension, return or failure |
| GapScan.StepKeeps | crates/hns-wallet-bitcoin-kyoto/src/runtime.rs:1244-1270 | each canonical block is still to be emitted, or is queued or fetched if it matches a script it is tested for, through filters, reorganizations, replays, rescans and extensions; a block canonical since the start of the run is tested for the scripts added since |
| GapScan.ScanReachesFixpoint | crates/hns-wallet-bitcoin-kyoto/src/runtime.rs:1335-1493 | when update returns, every canonical block whose filter matches a script within the gap limit of the highest used index has been fetched |
| GapScan.PassesAreBounded | crates/hns-wallet-bitcoin-kyoto/src/runtime.rs:1428-1468 | over a whole update the passes that begin another one are no more than the indices left plus the approved transactions not yet rescanned |
| GapScanUpdates.FirstReturn | crates/hns-wallet-bitcoin-kyoto/src/runtime.rs:1365-1488 | the first update returns rested, its scripts reaching exactly to the end of the gap, with the gap closed |
| GapScanUpdates.LaterReturn | crates/hns-wallet-bitcoin-kyoto/src/runtime.rs:1365-1488 | so does every later one, unless a block was missable when it began |
| GapScanUpdates.NextReturnClosesIff | crates/hns-wallet-bitcoin-kyoto/src/runtime.rs:1469-1476 | every run of the next update returns with the gap closed if and only if no block is missable: none that is unfetched, below the replay and matching a script the subscriber has, which some use within the index limit brings within the gap without adding a script that the block matches or that leads to a higher index |
| GapScanUpdates.FamiliarClosesIff | crates/hns-wallet-bitcoin-kyoto/src/runtime.rs:1469-1476 | when the unfetched blocks match no wallet script the subscriber lacks: if and only if every block matching one of its scripts below the index limit is fetched |
| GapScanUpdates.SecondMatchSaves | crates/hns-wallet-bitcoin-kyoto/src/runtime.rs:1244-1270 | a block that also matches a lacking script of no higher index is not missed |
| GapScanUpdates.LookaheadCaughtIff | crates/hns-wallet-bitcoin-kyoto/src/runtime.rs:1469-1476 | all matching blocks are fetched after a return if and only if those matching an untested lookahead script are |
| GapScanUpdates.CallerCheck | crates/hns-wallet-bitcoin-kyoto/src/runtime.rs:1469-1476 | when revealed count plus lookahead stays within the scripts scanned for on both keychains, all matching blocks are fetched and the next update closes the gap |
| GapScanUpdates.SecondUpdateMissesBlock | crates/hns-wallet-bitcoin-kyoto/src/runtime.rs:2135-2144 | after a first update with the gap closed, a second one can return without fetching a block within the gap, two blocks below the tip and below the replay its caller asks for |
| FilterFraming.SizeRoundTrip | crates/hns-wallet-bitcoin-kyoto/src/sync_cache.rs:486-495 | a CompactSize length decodes to itself in any context |
| FilterFraming.SizeIsCanonical | crates/hns-wallet-bitcoin-kyoto/src/sync_cache.rs:486-495 | only the minimal form of a length is accepted |
| FilterFraming.PacketRoundTrip | crates/hns-wallet-bitcoin-kyoto/src/sync_cache.rs:351-366 | a filter packet decodes to its filter |
| FilterFraming.PacketIsCanonical | crates/hns-wallet-bitcoin-kyoto/src/sync_cache.rs:478-497 | an accepted packet is the encoding of what it decodes to |
| FilterFraming.BatchRoundTrip | crates/hns-wallet-bitcoin-kyoto/src/sync_cache.rs:351-366 | decoding an encoded batch of 1 to 64 filters gives back the same filters |
| FilterFraming.BatchIsCanonical | crates/hns-wallet-bitcoin-kyoto/src/sync_cache.rs:459-503 | any accepted bytes are the encoding of what they decode to |
| FilterFraming.DecodeFilters | crates/hns-wallet-bitcoin-kyoto/src/sync_cache.rs:459-503 | the cursor loop computes the specified decoding |
| FilterFraming.ValidBatchFits | crates/hns-wallet-bitcoin-kyoto/src/sync_cache.rs:505-527 | a validated batch never exceeds 8 MiB and reads back |
| FilterFraming.SerializeRoundTrip | crates/hns-wallet-bitcoin-kyoto/src/sync_cache.rs:332-341 | every valid batch of any stream serializes within the limit and reads back |
| FilterFraming.DeserializeIsCanonical | crates/hns-wallet-bitcoin-kyoto/src/sync_cache.rs:332-341 | whatever a stream accepts is the one serialization of what it means |
| SyncCache.EncryptedSyncCache.constructor | crates/hns-wallet-bitcoin-kyoto/src/sync_cache.rs:86-140 | the epoch and kept prefix of the stored recovery record |
| SyncCache.EncryptedSyncCache.Payload | crates/hns-wallet-bitcoin-kyoto/src/sync_cache.rs:292-328 | the chunk loop computes the specified payload or failure |
| SyncCache.EncryptedSyncCache.ReadOne | crates/hns-wallet-bitcoin-kyoto/src/sync_cache.rs:255-344 | a read is the specified read of the stored rows |
| SyncCache.EncryptedSyncCache.Read | crates/hns-wallet-bitcoin-kyoto/src/sync_cache.rs:436-445 | a corrupt read retires the epoch before reporting; any other changes nothing |
| SyncCache.EncryptedSyncCache.AppendOne | crates/hns-wallet-bitcoin-kyoto/src/sync_cache.rs:346-429 | an invalid batch is refused; a valid one is the specified append |
| SyncCacheLogs.ReadsLog | crates/hns-wallet-bitcoin-kyoto/src/sync_cache.rs:255-344 | every read of a well-stored namespace returns the batch of the log at that index, through chunking, or nothing past its end |
| SyncCacheLogs.ReadsSplitLog | crates/hns-wallet-bitcoin-kyoto/src/sync_cache.rs:255-271 | through an epoch a read sees the kept base prefix, then the epoch's own log |
| SyncCacheLogs.AppendRefines | crates/hns-wallet-bitcoin-kyoto/src/sync_cache.rs:346-429 | an append changes nothing or adds exactly that batch at the end of its stream; counts and bytes of the head stay those of the records; other namespaces are untouched |
| SyncCacheLogs.RunRefines | crates/hns-wallet-bitcoin-kyoto/src/sync_cache.rs:346-429 | every run of appends stores exactly the batches that had room when they came |
| SyncCacheLogs.StreamIsPrefixIff | crates/hns-wallet-bitcoin-kyoto/src/sync_cache.rs:368-383 | a stream is a prefix of the batches offered to it if and only if no batch found room after one that did not |
| SyncCacheLogs.StreamIsNotAlwaysAPrefix | crates/hns-wallet-bitcoin-kyoto/src/sync_cache.rs:374-377 | a reachable case where it is not, with valid one-filter batches |
| SyncCacheEpochs.RetirementIsSound | crates/hns-wallet-bitcoin-kyoto/src/sync_cache.rs:142-200 | after a damaged read and reopening, reads below the kept counts are unchanged, above them there is nothing, and the damaged index is above |
| SyncCacheEpochs.PrefixesStayNested | crates/hns-wallet-bitcoin-kyoto/src/sync_cache.rs:160-183 | over every run of appends, damage, reads and reopenings, a stream keeps a nonempty base prefix only if every earlier one is complete as of the first retirement |
| SyncCacheEpochs.RetirementsAreBounded | crates/hns-wallet-bitcoin-kyoto/src/sync_cache.rs:142-200 | with no new damage or appends, the kept batches bound the retirements to come |
| SyncCacheEpochs.RetirementsEnd | crates/hns-wallet-bitcoin-kyoto/src/sync_cache.rs:142-200 | from any open cache, whatever its epoch holds: one retirement, then no more than the batches that it keeps |
| SyncCacheEpochs.LostHead | crates/hns-wallet-bitcoin-kyoto/src/sync_cache.rs:218-253 | with the head gone, a read is taken for damage if and only if exactly one other record is left; with more nothing is ever retired, read or appended |
| SyncCacheEpochs.LostHeadIsStuck | crates/hns-wallet-bitcoin-kyoto/src/sync_cache.rs:218-235 | so a cache that holds any batch is stuck once its head is lost |
| SwapKeys.BatchOutcome | crates/hns-wallet-bitcoin-kyoto/src/swap_key_store.rs:570-689 | the batch is applied whole exactly when everything it was prepared from is still there, and otherwise writes nothing |
| SwapKeys.AppliedKeeps | crates/hns-wallet-bitcoin-kyoto/src/swap_key_store.rs:570-689 | an applied batch keeps every namespace, every binding and the density of indices |
| SwapKeys.AllocationIsDense | crates/hns-wallet-bitcoin-kyoto/src/swap_key_store.rs:284-330 | in every interleaving the indices of a namespace are exactly those below its next index, each held by one owner; the high-water revision is the next index and at most 100,001 |
| SwapKeys.AlwaysLoads | crates/hns-wallet-bitcoin-kyoto/src/swap_key_store.rs:333-373 | every reachable store passes its own topology checks |
| SwapKeys.LoadsForever | crates/hns-wallet-bitcoin-kyoto/src/swap_key_store.rs:333-373 | a successful allocation is returned identically for ever |
| SwapKeys.RetryAnswers | crates/hns-wallet-bitcoin-kyoto/src/swap_key_store.rs:407-462 | the same request gets the same allocation, an earlier clock is refused, any other terms, network or account conflicts |
| SwapKeys.Allocate | crates/hns-wallet-bitcoin-kyoto/src/swap_key_store.rs:284-330 | with other allocators running freely between its load and its batch: the store stays sound, an answer matches the request and loads, a bound owner writes nothing, and it gives up only when the namespace allocated on the way, twice unless the owner was bound |
| SwapKeys.LosesToRivals | crates/hns-wallet-bitcoin-kyoto/src/swap_key_store.rs:305-330 | a prepared batch is refused if and only if its namespace has allocated past it or its owner is bound |
| SwapKeys.RivalMakesStale | crates/hns-wallet-bitcoin-kyoto/src/swap_key_store.rs:305-330 | a rival that prepares and applies in the same namespace makes a waiting batch stale |
| SwapKeys.SplitHighLoad | crates/hns-wallet-bitcoin-kyoto/src/swap_key_store.rs:464-480 | with other allocators between its two reads, the namespace reads as at the first one, or as corrupt if and only if its first allocation was committed in between |
| SwapKeys.FirstCommitReadsCorrupt | crates/hns-wallet-bitcoin-kyoto/src/swap_key_store.rs:464-480 | a case in which it does: the first commit of a namespace between the two reads, of a store that then loads |
| SwapKeys.SplitLoad | crates/hns-wallet-bitcoin-kyoto/src/swap_key_store.rs:339-353 | with other allocators between any of its four reads, an allocation reads as at the first one, or as corrupt if and only if the owner was bound between the first two |
| Publication.TermsRoundTrip | crates/hns-wallet-chain-api/src/recovery_publication.rs:146-194 | every valid set of terms encodes to 204 bytes that decode to it |
| Publication.TermsAreCanonical | crates/hns-wallet-chain-api/src/recovery_publication.rs:168-194 | accepted bytes are the encoding of valid terms |
| Publication.ContractsMirror | crates/hns-wallet-chain-api/src/recovery_publication.rs:119-144 | the two contracts share the hashlock, mirror the keys, lie on Bitcoin and Handshake, and the offered one refunds strictly later |
| Publication.DecodeInvertsFromTerms | crates/hns-wallet-chain-api/src/recovery_publication.rs:233-315 | decode inverts from_terms for all valid terms and both sides, with 3 frames on Bitcoin and 6 on Handshake |
| Publication.AcceptedIffPublished | crates/hns-wallet-chain-api/src/recovery_publication.rs:271-315 | a marker and frames are accepted if and only if some valid terms publish exactly them, and decode to those terms |
| Publication.MarkerBindsFrames | crates/hns-wallet-chain-api/src/recovery_publication.rs:303-305 | one marker is accepted with one list of frames only |
| Publication.Take | crates/hns-wallet-chain-api/src/recovery_publication.rs:197-211 | the next bytes and the advanced offset, or failure past the end |
| Publication.DecodeTerms | crates/hns-wallet-chain-api/src/recovery_publication.rs:168-194 | the field-by-field decoder computes the specified decoding |
| Publication.CollectFrames | crates/hns-wallet-chain-api/src/recovery_publication.rs:291-302 | the frame loop computes the specified payload or failure |
| Discovery.WalkBack | crates/hns-wallet-bitcoin-kyoto/src/recovery_publication.rs:708-732 | the backward loop, reversed, is the specified walk |
| Discovery.DiscoveryInvertsConstruction | crates/hns-wallet-bitcoin-kyoto/src/recovery_publication.rs:693-748 | in any graph holding a linear package the walk collects exactly its ordered ancestors and rebuilds terms and side |
| Discovery.OnlyOneListAccepted | crates/hns-wallet-bitcoin-kyoto/src/recovery_publication.rs:581-687 | for one funding transaction at most one list of ancestors is accepted |
| Discovery.OtherListsRejected | crates/hns-wallet-bitcoin-kyoto/src/recovery_publication.rs:581-687 | any list with an ancestor dropped, reordered or substituted is rejected |
| Discovery.AcceptedIffPackage | crates/hns-wallet-bitcoin-kyoto/src/recovery_publication.rs:581-687 | a list is accepted if and only if it is a linear package of some valid terms |
| Discovery.Discover | crates/hns-wallet-bitcoin-kyoto/src/recovery_publication.rs:693-748 | the search returns exactly the contracts of the graph anchored at the wallet's script |
| Discovery.PackageIsDiscovered | crates/hns-wallet-bitcoin-kyoto/src/recovery_publication.rs:693-748 | every such package in the graph is found with its terms and side |

## Left out

- Encryption, base64, record serialization and SQL: the store holds values exactly.
- Script building, ECDSA, sighashes and curve arithmetic: predicates or constructors stand for them.
- BDK internals: a changeset is three optional immutable fields and a map, a wallet index is its used and revealed counts, a chain is its blocks; the index's own lookahead window, which decides whether a used script is recognised, is not modelled.
- Record format versions and account tags of the changeset journal, and several accounts in one store: one account is modelled.
- Journal rows are listed in the order of their ids, so the sort of the loaded rows is the identity.
- Widths of sequence numbers, heights and epochs beyond the limits the code tests: they are unbounded integers.
- BroadcastOrder.ApprovedOrder: within one round the ready transactions come in any order, where the code takes them by id.
- BroadcastJournal.ApprovesExactlyWhen: the workflow guard consumed with a guarded approval is not modelled.
- BroadcastPackage.PackageLife: a clock that does not go back, one resume pass at a time, a transaction observed only after it was sent, and outside transactions that spend a member only after it was attempted.
- BroadcastRuntime.ReconcileRecords: a record that the rewritten fields would make invalid cannot occur from sound records, so that check is not repeated.
- Watch.VerifySpend: the witness is reduced to what it proves; the Merkle and witness-commitment checks of matched blocks are not modelled.
- WatchRuns.IncrementalEqualsRescan: each call supplies every touching block above its fork and a checkpoint at each recorded height above it, the tip is not below a recorded height, and each chain has at most one funding and one valid spend of it.
- GapScan.ScanReachesFixpoint: a completed pass has emitted every canonical filter after the chain event of its block; block downloads succeed; a block hash fixes its height.
- GapScanUpdates.NextReturnClosesIff: a new block may use any index, where the wallet library recognises a use only within its own lookahead window.
- GapScan.KyotoSubscriber.OnSynced: the bounded number of concurrent block requests and the blocks handed to the watches are not modelled.
- SyncCacheEpochs.PrefixesStayNested: one open cache at a time, and damage anywhere but in the recovery record itself.
- SwapKeys.Allocate: the derivation of a key cannot fail once the seed is there, and each of its loads is one read of the store; what separate reads can see is in SwapKeys.SplitHighLoad and SwapKeys.SplitLoad.
- Discovery.Discover: the parsing of data outputs is reduced to a frame, a marker or nothing.
- Fee quotes, transaction building, activity pages, progress counters, timeouts and the peer network: input or reporting around the state modelled here.

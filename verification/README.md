# Verified model of the MultiversX API's stateful services

A Dafny model of the parts of the API that keep state across calls or build an index that must agree
with a simple specification: the transaction batch processor, the TPS counters, the NFT paging job,
the shared account-token requests, keybase confirmation, identities and their stake distribution,
the exchange token list, role tables and role streams, node-state sections, unlock milestones, the
transfer-count reconciliation, and the configuration overrides. Calls to the gateway, the index,
Redis and other services are parameters: what they answer is arbitrary unless a lemma says otherwise.

Code that changes state in place is a class or a method with loops, proved equal to a specification
function; the main results are lemmas about those functions over all inputs, all interleavings or
all runs.

| files | part |
|---|---|
| `TransactionBatches`, `BatchSteps`, `BatchSafety`, `BatchChain`, `BatchOrder`, `BatchCompletion`, `BatchOutcomes`, `BlockReports` | batches of grouped transactions: submitting, reporting, dropping, expiry |
| `TpsWarmer` | nonce cursors and transaction counters in 5s, 30s and 600s buckets |
| `NftPaging` | the backward walk over NFTs by timestamp |
| `EsdtRequests`, `EsdtOutcomes`, `EsdtKeptEntry` | concurrent calls that share one gateway request, and what keeping the entry longer would change |
| `Keybase` | which identity a BLS key is confirmed for |
| `StakeShares`, `StakeProviders`, `IdentityGroups`, `IdentityRanking`, `IdentityFields` | stake distribution, grouping, ranking and ordering of identities |
| `MexTokens`, `MexListing` | best pair, volume and trades of each exchange token |
| `CollectionRoles`, `TokenRoleStream` | role tables by address, and the stream of addresses and roles |
| `AccountKeys` | the flat list of node states |
| `LockedAsset` | unlock milestones |
| `AccountIndex` | reconciliation of stored transfer counts |
| `ConfigTree`, `ConfigStore`, `ConfigOverrides`, `ConfigValues` | nested configuration overridden from the environment |
| `Collections` | distinct values and sums shared by the above |

What the code does not guarantee, each stated as a lemma with its exact condition or a
concrete run:

- The pending entries of a refused batch stay, and count for the next batch with the same id. If the
  new batch has one of those transactions in a later group, that item can be settled before the
  groups in front of it (`OrderIffNothingLeftOver`); if they make up a whole later group, the batch
  can be marked success with its first group still open, and be dropped after that
  (`SuccessIffNoOvertaking`, `SuccessIsFinalIffNoOvertaking`; a run of three steps in
  `RetryMarksSuccessEarly`). Both lemmas give the exact condition; an id that was not used before is
  always safe (`NewIdIsClean`).
- A batch with an empty group never reaches success, even when every transaction succeeds
  (`CompletesIff`, `EmptyGroupNeverSucceeds`; `TrailingEmptyGroup` is the smallest case).
- The NFT walk repeats one page forever as soon as a page's worth of NFTs share a timestamp
  (`EndsIffSparse`).
- A TPS cursor of 0 on a chain shorter than the window starts at negative nonces (`GoesBackIff`).
- An older account-token answer can replace a newer one in the cache: exactly if a request that
  started after the entry of the older one was cleared is the last one stored, and has not expired
  (`ReplacesNewerIff`; a run in `OlderResultMayReplaceNewer`).
- An identity with nothing locked and several providers shows the first with the whole stake
  (`NothingLocked`).
- The total that stake percentages refer to leaves out what other nodes than validators have locked
  (`TotalCoversGroupsIff`).
- The configuration depends on the order of the environment exactly if two names clash
  (`EnvironmentOrderDoesNotMatterIff`), and an array that does not decode may still replace scalars on its
  way by dictionaries (`UndecodableChangesNothingIff`).
- The index is reconciled only as far as the query for indexed addresses is complete
  (`ReconciledIffComplete`).

## Model

| member | source | states |
|---|---|---|
| TransactionBatches.BatchTransactionProcessor.StartTransactionGroup | src/endpoints/transactions.batch/transactions.batch.service.ts:105-156 | sends the items of a group up to the first refused one, marks that one invalid, and registers pending entries for exactly the accepted ones |
| TransactionBatches.BatchTransactionProcessor.StartTransactionBatch | src/endpoints/transactions.batch/transactions.batch.service.ts:30-89 | resets all statuses and starts the first group; if an item is refused the batch is returned as invalid and not cached, else it is cached and returned |
| TransactionBatches.BatchTransactionProcessor.PostBatch | src/endpoints/transactions.batch/transactions.batch.controller.ts:18-43 | turns away an id that is still cached and a batch with a second sender, and starts any other |
| TransactionBatches.BatchTransactionProcessor.SettleItem | src/crons/transaction.processor/batch.transaction.processor.service.ts:230-269 | one item's new status, the batch's and the next group's change as `Settle` specifies them (told from the reports in `BatchOutcomes.ReportOutcome` and `NextGroupOutcome`), and the stored batch |
| TransactionBatches.BatchTransactionProcessor.ProcessTransaction | src/crons/transaction.processor/batch.transaction.processor.service.ts:219-277 | the whole effect of one report on batches, pending entries and sent transactions |
| TransactionBatches.BatchTransactionProcessor.HandleTransactionBatches | src/crons/transaction.processor/batch.transaction.processor.service.ts:169-207 | pending entries are read once, then each pending hash is processed once, with the last transaction of that hash |
| TransactionBatches.BatchTransactionProcessor.HandleDroppedTransaction | src/crons/transaction.processor/batch.transaction.processor.service.ts:63-105 | the loops over groups and items change the world as `Drop` specifies (told in `BatchOutcomes.DropsExactly`) |
| BatchSteps.ProcessOne | src/crons/transaction.processor/batch.transaction.processor.service.ts:229-273 | the scan over all groups amounts to one update of the one item with the hash |
| BatchSteps.ReportLost | src/crons/transaction.processor/batch.transaction.processor.service.ts:219-226 | a report for a batch that is gone, or lacks the transaction, only loses the pending entry |
| BatchSteps.StepPreserves | src/crons/transaction.processor/batch.transaction.processor.service.ts:63-277 | every submission, report, drop and expiry, on any batches, keeps the invariant |
| BatchOutcomes.ReportOutcome | src/crons/transaction.processor/batch.transaction.processor.service.ts:229-269 | a pending batch becomes invalid exactly if the transaction is reported invalid, or completes its group and an item of the next group is refused; successful exactly if it completes the last group; the item carries the reported status |
| BatchOutcomes.ReportAlone | src/crons/transaction.processor/batch.transaction.processor.service.ts:229-277 | a report that completes no group in front of another sends nothing and changes nothing but the item, the batch status and the entry |
| BatchOutcomes.NextGroupOutcome | src/crons/transaction.processor/batch.transaction.processor.service.ts:245-262 | a completed group sends the next one up to the first refused transaction, marks that one invalid and lists the accepted ones from now on |
| BatchOutcomes.DropsExactly | src/crons/transaction.processor/batch.transaction.processor.service.ts:63-105 | the timer changes something exactly if a transaction was listed more than 600000 ms ago, the chain does not know it, and its cached batch has it open; then item and batch are dropped, the entry is gone, and all else is as before |
| BatchOutcomes.AnswersExactly | src/endpoints/transactions.batch/transactions.batch.controller.ts:23-37 | exactly when a submission is turned away for having no first transaction, an id cached for its sender, or a second sender; then nothing changes |
| BatchOutcomes.StartOutcome | src/endpoints/transactions.batch/transactions.batch.service.ts:30-89 | a started batch has all items open but the first refused one of its first group; it is invalid exactly if there is one, and cached otherwise |
| BatchOutcomes.StartSends | src/endpoints/transactions.batch/transactions.batch.service.ts:105-156 | a start sends the first group up to the first refused transaction and lists the accepted ones |
| BatchOutcomes.LastTransactionCounts | src/crons/transaction.processor/batch.transaction.processor.service.ts:169-207 | of several transactions of a block with the same hash the last counts |
| BatchOutcomes.PendingOnes | src/crons/transaction.processor/batch.transaction.processor.service.ts:169-207 | exactly the transactions of the block with a pending entry are processed |
| BatchSafety.StepConcerns | src/crons/transaction.processor/batch.transaction.processor.service.ts:229-273 | a step changes a cached batch only by settling one of its own listed items, or by expiry; all other steps leave it alone |
| BatchSafety.RunTracked | src/crons/transaction.processor/batch.transaction.processor.service.ts:229-275 | the invariant of one submission holds over every run until the batch expires, whatever else is submitted |
| BatchOrder.OrderIffNothingLeftOver | src/crons/transaction.processor/batch.transaction.processor.service.ts:229-275 | items are settled only after all earlier groups succeeded, over every run, exactly if no later group has a live entry under the key at submission |
| BatchOrder.SuccessIffNoOvertaking | src/crons/transaction.processor/batch.transaction.processor.service.ts:240-244 | success means that every item of every group succeeded, over every run, exactly if no later group, followed by non-empty ones only, has live entries for all its transactions |
| BatchOrder.SuccessIsFinalIffNoOvertaking | src/crons/transaction.processor/batch.transaction.processor.service.ts:84-96 | success is final over every run under exactly that condition |
| BatchOrder.WithoutOvertaking | src/crons/transaction.processor/batch.transaction.processor.service.ts:229-275 | under that condition a batch with an empty group never succeeds, and in one without every transaction is sent at most once, after all earlier groups succeeded |
| BatchOrder.RetryMarksSuccessEarly | src/crons/transaction.processor/batch.transaction.processor.service.ts:240-244 | a refused batch and a retry under its id: the retry is marked success while its first group is open |
| BatchOrder.StatusForGood | src/crons/transaction.processor/batch.transaction.processor.service.ts:232-262 | over every run in which it does not expire, a batch that left pending never becomes pending again, nor successful |
| BatchOrder.SettledForGood | src/crons/transaction.processor/batch.transaction.processor.service.ts:84-96 | after a submission with nothing left over, settled items keep their status and success is final |
| BatchOrder.NewIdIsClean | src/endpoints/transactions.batch/transactions.batch.service.ts:117-121 | an id that was never submitted has nothing left over |
| BatchOrder.EveryRunIsSafe | src/crons/transaction.processor/batch.transaction.processor.service.ts:229-275 | from the empty caches, whatever else happens: order, single sending and success of a batch that finds nothing left over |
| BatchChain.ChainCompletes | src/crons/transaction.processor/batch.transaction.processor.service.ts:240-248 | from a group whose items all have entries, followed by non-empty groups, success reports reach success without touching earlier groups |
| BatchCompletion.CompletesIff | src/crons/transaction.processor/batch.transaction.processor.service.ts:219-276 | success reports can complete an accepted batch exactly if it has no empty group, or a later group can overtake |
| BatchCompletion.EmptyGroupNeverSucceeds | src/crons/transaction.processor/batch.transaction.processor.service.ts:240-248 | a batch with an empty group never succeeds over any run, unless a group behind it can overtake |
| BatchCompletion.TrailingEmptyGroup | src/crons/transaction.processor/batch.transaction.processor.service.ts:240-248 | one transaction followed by an empty group never succeeds, in any world |
| BatchCompletion.AnyOrderCompletes | src/crons/transaction.processor/batch.transaction.processor.service.ts:219-276 | success reports in any permitted order: as many as there are items complete the batch, never fewer, and the final caches and the sent transactions are determined |
| BatchCompletion.OrderOfReportsDoesNotMatter | src/crons/transaction.processor/batch.transaction.processor.service.ts:219-276 | two complete deliveries end in equal worlds |
| BatchCompletion.UnguardedReportSendsAgain | src/crons/transaction.processor/batch.transaction.processor.service.ts:193-206 | a success once processed has no entry left; processing it without one would send the next group again |
| BlockReports.HandlingIsARun | src/crons/transaction.processor/batch.transaction.processor.service.ts:169-207 | handling a block with entries read at the start is a run of single reports, so all results about runs apply |
| TpsWarmer.Warmer.ProcessTpsForShard | src/crons/tps/tps-warmer.service.ts:101-124 | one run visits the nonces of the specification, adds their increments and leaves the cursor at the last |
| TpsWarmer.Warmer.SaveTps | src/crons/tps/tps-warmer.service.ts:143-152 | one increment, to the bucket the timestamp falls in |
| TpsWarmer.VisitedExactly | src/crons/tps/tps-warmer.service.ts:101-124 | a run counts exactly the nonces up to the end nonce that are above the cursor and within the window |
| TpsWarmer.GoesBackIff | src/crons/tps/tps-warmer.service.ts:113-124 | a run goes back to nonces at or below the cursor exactly if the cursor is 0 and the chain is shorter than the window |
| TpsWarmer.CountedAtMostOnce | src/crons/tps/tps-warmer.service.ts:101-124 | over any sequence of runs, complete or cut short, no nonce is counted twice and no run counts more nonces than the window holds |
| TpsWarmer.SkippedExactly | src/crons/tps/tps-warmer.service.ts:101-124 | over any sequence of runs, a nonce up to the last cursor is left out exactly if some run that went on found its cursor below it and it at or below the end nonce less the window |
| TpsWarmer.CursorNeverDecreases | src/crons/tps/tps-warmer.service.ts:101-124 | the cursor only grows over any sequence of runs |
| TpsWarmer.NestedFloor | src/utils/tps.utils.ts:6-10 | flooring to a wide bucket is flooring to the narrow one first |
| TpsWarmer.OrderDoesNotMatter | src/crons/tps/tps-warmer.service.ts:131-152 | the counters are the same for every order of the increments |
| TpsWarmer.BucketsConserve | src/crons/tps/tps-warmer.service.ts:131-152 | for every interleaving, each wide bucket is the sum of its narrow ones and each family totals the transactions processed |
| TpsWarmer.Warmer.ProcessJobs | src/crons/tps/tps-warmer.service.ts:45-53 | any runs over any shards add the increments of the specified visits and leave the specified cursors |
| TpsWarmer.ShardsAreIndependent | src/crons/tps/tps-warmer.service.ts:45-53 | each shard ends with the cursor, and counts the nonces, that its own runs alone would give |
| TpsWarmer.CountersAreVisits | src/crons/tps/tps-warmer.service.ts:101-152 | over any runs on any shards, in any order of the increments: each family totals the transactions of the visited nonces, and none is visited twice |
| NftPaging.ProcessNfts | src/crons/nft/nft.cron.service.ts:151-196 | if fewer than a page share any timestamp, the walk ends, offers every NFT in range, and completes the handler at most once per identifier |
| NftPaging.EndsIffSparse | src/crons/nft/nft.cron.service.ts:155-193 | the walk ends exactly if fewer than a page share any timestamp in range |
| NftPaging.SparsePageEndsEarlier | src/crons/nft/nft.cron.service.ts:185-192 | under that condition a full page ends strictly earlier than it began |
| NftPaging.FullPageStaysAbove | src/crons/nft/nft.cron.service.ts:185-192 | a full page never gets below a timestamp that a whole page shares |
| NftPaging.ProcessPage | src/crons/nft/nft.cron.service.ts:163-183 | a page offers each identifier not handled before, those whose handler threw included, and records those whose handler returned |
| NftPaging.OfferNft | src/crons/nft/nft.cron.service.ts:169-183 | an NFT with an identifier not handled before is offered exactly once more, any other is passed over |
| EsdtRequests.EsdtAddressService.GetAllEsdts | src/endpoints/esdt/esdt.address.service.ts:368-384 | a call joins the pending request, or returns the cached value, or starts a request and registers it |
| EsdtRequests.EsdtAddressService.ResumeStarter | src/endpoints/esdt/esdt.address.service.ts:386-393 | the starter clears the entry whether the request succeeded or failed |
| EsdtRequests.RunPreserves | src/endpoints/esdt/esdt.address.service.ts:366-398 | every interleaving of the steps between awaits keeps the invariant |
| EsdtRequests.OneRequestPerAddress | src/endpoints/esdt/esdt.address.service.ts:366-391 | an address has at most one unanswered request and the pending entry is exactly that one |
| EsdtRequests.ResultsAreAnswers | src/endpoints/esdt/esdt.address.service.ts:368-397 | every result is an answer for the caller's own address, from a request that overlaps the call unless it was cached; which calls return is in `EsdtOutcomes.OutcomesExactly` |
| EsdtOutcomes.OutcomesExactly | src/endpoints/esdt/esdt.address.service.ts:368-397 | over every run, a call returns v exactly if its request was answered with v and it resumed (joined) or stored (started); it throws exactly if the request was rejected and it resumed, or it is the starter and the time to live failed |
| EsdtOutcomes.RequestKept | src/endpoints/esdt/esdt.address.service.ts:368-397 | a call waits for one request from its entry to its end |
| EsdtOutcomes.EnterOutcome | src/endpoints/esdt/esdt.address.service.ts:368-384 | a call joins the pending request, else returns what is cached, else starts a request and registers it |
| EsdtOutcomes.JoinerReturns | src/endpoints/esdt/esdt.address.service.ts:369-373 | a joined call whose request was answered returns the answer when it resumes |
| EsdtOutcomes.StarterReturns | src/endpoints/esdt/esdt.address.service.ts:386-397 | a starter whose request was answered clears the entry, and returns and caches the answer when it stores it |
| EsdtRequests.EntriesAreCleared | src/endpoints/esdt/esdt.address.service.ts:386-391 | a pending entry can always be cleared, and after a failure the next call starts a new request |
| EsdtRequests.OlderResultMayReplaceNewer | src/endpoints/esdt/esdt.address.service.ts:388-395 | a run in which a newer cached result is replaced by an older one |
| EsdtRequests.CacheIsLastStored | src/endpoints/esdt/esdt.address.service.ts:376-395 | what is cached is what was stored last and has not expired |
| EsdtRequests.ReplacesNewerIff | src/endpoints/esdt/esdt.address.service.ts:388-395 | over every run, storing a result replaces that of a later request exactly if one that started after the entry was cleared is the last stored, and has not expired |
| EsdtKeptEntry.KeptEntryNeverReplacesNewer | src/endpoints/esdt/esdt.address.service.ts:389-395 | if the entry were kept until the result is cached, no run would replace the result of a later request |
| Keybase.KeybaseService.ConfirmIdentity | src/common/keybase/keybase.service.ts:57-96 | what listing an identity's keys adds to the confirmations, and when it fails |
| Keybase.KeybaseService.ConfirmIdentities | src/common/keybase/keybase.service.ts:30-46 | the final confirmations are the specified ones; it fails exactly if the lookup of a non-provider address fails |
| Keybase.ConfirmedIsUnique | src/common/keybase/keybase.service.ts:39-45 | a key belongs to the last identity listing an address that owns it, else to the heartbeat identity that lists it, else to none; this determines the record |
| Keybase.ConfirmedFor | src/common/keybase/keybase.service.ts:57-96 | told from addresses and heartbeats: the last identity listing an owner, else the heartbeat identity if it lists the key of 192 letters, else none |
| Keybase.OrderDoesNotMatterIff | src/common/keybase/keybase.service.ts:57-96 | the order in which identities are processed has no effect exactly if no two of them claim a key through its owner |
| StakeShares.GetStakeDistribution | src/endpoints/identities/identities.service.ts:120-166 | the reduce, the rounding, the correction of the first share and the deletion of zeros give the distribution that the following rows tell from the providers of the nodes |
| StakeProviders.EntriesAreOfProviders | src/endpoints/identities/identities.service.ts:125-137 | an entry is of an address that is the provider of some node, or direct if some node has none |
| StakeProviders.EntriesInOrder | src/endpoints/identities/identities.service.ts:121-137 | entries come in the order in which their providers first appear |
| StakeProviders.LaterShares | src/endpoints/identities/identities.service.ts:121-163 | any provider but that of the first node has its hundredths of what is locked, rounded down, as its share, or no entry if these are zero |
| StakeProviders.FirstShare | src/endpoints/identities/identities.service.ts:147-163 | the provider of the first node has at least its part rounded down, and more by less than the number of providers |
| StakeShares.SharesAreFloors | src/endpoints/identities/identities.service.ts:139-153 | all shares but the first are the floors of the true parts; the first is at least its floor and exceeds it by less than the number of keys; the sum is 100 |
| StakeShares.DistributionIsWhole | src/endpoints/identities/identities.service.ts:120-166 | with something locked, the distribution a caller sees adds up to exactly one and has only positive shares |
| StakeShares.LaterEntries | src/endpoints/identities/identities.service.ts:139-163 | a later key is missing exactly if its part is below a hundredth, and else has its floor |
| StakeShares.DeletionKeepsTheSum | src/endpoints/identities/identities.service.ts:156-163 | deleting zero shares keeps the sum |
| StakeShares.NothingLocked | src/endpoints/identities/identities.service.ts:139-163 | with nothing locked, of several keys the first gets the whole and the others null |
| IdentityGroups.GroupNodes | src/endpoints/identities/identities.service.ts:198-244 | a known identity's group is its nodes in order, in order of first appearance; every other node is a group of its own |
| IdentityFields.GroupsHold | src/endpoints/identities/identities.service.ts:206-244 | a group is of an identity, with all nodes of it and the name of its first profile, or else its first node key that is not empty; or it is one node that names no identity with a profile |
| IdentityFields.EveryNodeIsHeld | src/endpoints/identities/identities.service.ts:224-244 | every node is in the group of its identity, or stands alone |
| IdentityGroups.GroupingPartitions | src/endpoints/identities/identities.service.ts:224-244 | every node is in exactly one group |
| IdentityGroups.GroupingConserves | src/endpoints/identities/identities.service.ts:168-174 | stake, top-up or any other measure summed over the groups is the sum over the nodes |
| IdentityGroups.NoGroupIsEmpty | src/endpoints/identities/identities.service.ts:250-251 | no group is empty, so no blank identity is produced |
| IdentityGroups.TotalCoversGroupsIff | src/endpoints/identities/identities.service.ts:94-118 | the total equals what the groups have locked exactly if only validators have something locked |
| IdentityRanking.GetAllIdentities | src/endpoints/identities/identities.service.ts:198-298 | the list is the ranked list of groups with validators, as the library's sort orders them |
| IdentityFields.FieldsOfIdentity | src/endpoints/identities/identities.service.ts:168-191 | an identity counts the validators of its group that are not inactive, and sums their stake and top-up |
| IdentityRanking.RanksFollowValidators | src/endpoints/identities/identities.service.ts:282-289 | for any sort that permutes into descending order, ranks are 1, 2, … with more validators ranking better, and exactly the groups with validators are listed |
| IdentityRanking.SortOrders | src/endpoints/identities/identities.service.ts:285-285 | sorting by insertion permutes into non-increasing order, so what is asked of the library's sort can be met |
| IdentityRanking.SortIsUnique | src/endpoints/identities/identities.service.ts:285-285 | if the sort is stable, its result is determined, ties included |
| IdentityRanking.CompareIsLexicographic | src/endpoints/identities/identities.service.ts:57-84 | negative exactly if the first differing criterion favours the first identity, zero exactly if all criteria agree, and antisymmetric |
| IdentityFields.FirstCriterionDecides | src/endpoints/identities/identities.service.ts:57-84 | the identity with more validators, stake, or stake and top-up goes first, as the first criterion that tells them apart has it |
| IdentityRanking.CompareIsAnOrder | src/endpoints/identities/identities.service.ts:57-84 | the comparison is a strict weak order for every list of criteria |
| MexTokens.GetAllMexTokens | src/endpoints/mex/mex.token.service.ts:172-222 | one token per listed id, from its best pair, with its volume and trades; the following rows tell from the pairs which ids are listed, and from which side |
| MexListing.ListedExactly | src/endpoints/mex/mex.token.service.ts:190-262 | an id is listed exactly if a pair has it as base with quote WEGLD or USDC, or as quote with base WEGLD or USDC and a quote that is neither or the pair being WEGLD/USDC |
| MexListing.ListedFromGreatest | src/endpoints/mex/mex.token.service.ts:190-221 | the listed side is that of the earliest pair of greatest value among those that list the id |
| MexListing.ListedInOrder | src/endpoints/mex/mex.token.service.ts:188-221 | tokens come in the order of the pairs that first list them, a base before its quote |
| MexListing.OneMorePair | src/endpoints/mex/mex.token.service.ts:176-186 | a pair adds its volume once per side that has the id, and its trades once |
| MexTokens.ListIsUnique | src/endpoints/mex/mex.token.service.ts:187-221 | the best pair side is the one of greatest value, earliest on ties; this determines the list |
| MexTokens.ComputeVolumes | src/endpoints/mex/mex.token.service.ts:174-185 | each token's volume is the sum over pairs, per side it is on |
| MexTokens.VolumesAddUpTwice | src/endpoints/mex/mex.token.service.ts:174-185 | all token volumes sum to twice the volume of all pairs |
| MexTokens.ComputeTradesCount | src/endpoints/mex/mex.token.service.ts:300-304 | trades are summed over the pairs that contain the token |
| AccountKeys.LookAheadIsOnePass | src/endpoints/accounts/account.service.ts:514-551 | the quadratic look-ahead reduce equals a one-pass parser |
| AccountKeys.InactiveNodesExactly | src/endpoints/accounts/account.service.ts:514-551 | the result is, in order, the non-status entries whose nearest preceding status is notStaked, the five status names written out |
| AccountKeys.SectionsRead | src/endpoints/accounts/account.service.ts:514-551 | on a flattened list of sections it is the concatenation of the notStaked sections |
| CollectionRoles.GetNftCollectionRoles | src/endpoints/collections/collection.service.ts:259-284 | the nested loops build the transposed table |
| CollectionRoles.TransposedExactly | src/endpoints/collections/collection.service.ts:259-284 | an address carries a role exactly if it is listed under it, each address occurs once in order of appearance, each role once per address, and each flag agrees |
| CollectionRoles.AddRole | src/endpoints/collections/collection.service.ts:268-280 | one address of a row: the result is the transposed table of the row with that address added |
| CollectionRoles.EntrySnoc | src/utils/token.helpers.ts:73-96 | setting a role gives the entry with that role appended and its flag agreeing |
| TokenRoleStream.ProcessEncodedAddressesAndRoles | src/endpoints/esdt/esdt.service.ts:285-313 | each address takes the roles that directly follow it |
| TokenRoleStream.RoundTrip | src/endpoints/esdt/esdt.service.ts:285-313 | reading the flattened form of any list of grants gives that list |
| TokenRoleStream.Distributes | src/endpoints/esdt/esdt.service.ts:288-303 | reading distributes over concatenation at an address or null |
| TokenRoleStream.LeadingRolesDropped | src/endpoints/esdt/esdt.service.ts:304-309 | roles before the first address leave no trace |
| TokenRoleStream.NulledRolesDropped | src/endpoints/esdt/esdt.service.ts:288-309 | roles after a null leave no trace |
| LockedAsset.GetUnlockMilestones | src/common/locked-asset/locked-asset.service.ts:142-171 | distinct remaining epochs in ascending order, each with the summed percentage |
| LockedAsset.LaterUnlocksLater | src/common/locked-asset/locked-asset.service.ts:173-188 | remaining epochs do not decrease with the unlock epoch |
| LockedAsset.TimePasses | src/common/locked-asset/locked-asset.service.ts:173-183 | remaining epochs do not increase with the current epoch |
| LockedAsset.UnlockedExactly | src/common/locked-asset/locked-asset.service.ts:173-188 | from the first epoch on, nothing remains exactly if the unlock epoch starts a month and is reached, or its month is over |
| LockedAsset.RemainingExactly | src/common/locked-asset/locked-asset.service.ts:173-188 | from the first epoch on, an unlock waits for the end of its month of 30 epochs, unless it starts the month and is reached |
| LockedAsset.RemainingBeforeInit | src/common/locked-asset/locked-asset.service.ts:173-188 | what an unlock before the first epoch waits for |
| LockedAsset.AggregationConserves | src/common/locked-asset/locked-asset.service.ts:147-168 | aggregation conserves what unlocks within any number of epochs |
| LockedAsset.TotalConserved | src/common/locked-asset/locked-asset.service.ts:147-168 | the milestones add up to the schedule |
| LockedAsset.MilestonesAreScheduled | src/common/locked-asset/locked-asset.service.ts:145-168 | each milestone, and all together, have the percentages of the schedule, which come in thousandths exactly with an activation nonce |
| AccountIndex.Updater.HandleUpdateAccountTransfersLast24h | src/crons/cache.warmer/cache.warmer.service.ts:388-416 | the batched loops leave the specified index and make the specified writes |
| AccountIndex.WrittenFacts | src/crons/cache.warmer/cache.warmer.service.ts:406-413 | at most one write per address, and exactly for those that differ |
| AccountIndex.ListedAfterRun | src/crons/cache.warmer/cache.warmer.service.ts:393-413 | a listed account ends with the transfers of its last entry |
| AccountIndex.UnlistedAfterRun | src/crons/cache.warmer/cache.warmer.service.ts:391-413 | an account that only the query of indexed addresses named ends with 0, any other keeps its count |
| AccountIndex.ReconciledIffComplete | src/crons/cache.warmer/cache.warmer.service.ts:388-416 | every stored count equals the source exactly if the query of indexed addresses left out no non-zero count |
| AccountIndex.SecondRunWritesNothing | src/crons/cache.warmer/cache.warmer.service.ts:388-416 | a second run with the same source writes nothing |
| ConfigStore.ConfigFile.ModifyVariable | entrypoint.py:99-118 | walking down and changing dictionary objects in place is the update of the nested dictionary at the path |
| ConfigStore.UpdateShowsAbove | entrypoint.py:103-118 | a change of the object at the end of the walk is a change of the whole at the path and nowhere else |
| ConfigTree.AssignedIsRead | entrypoint.py:99-118 | an assigned path reads back its value |
| ConfigTree.OthersUnchanged | entrypoint.py:99-118 | a prefix-incomparable path reads as before |
| ConfigTree.UndecodableChangesNothingIff | entrypoint.py:104-116 | an array that does not decode changes nothing exactly if all dictionaries on the way were there |
| ConfigTree.AssignmentsCommuteIff | entrypoint.py:99-118 | two assignments commute exactly if their paths are incomparable or they are the same assignment |
| ConfigTree.OrderDoesNotMatterIff | entrypoint.py:137-144 | updates give the same result in every order exactly if no two of them clash |
| ConfigOverrides.PrefixIffGoesOn | entrypoint.py:100-100 | one name's path is a prefix of another's exactly if the other name goes on with an underscore |
| ConfigOverrides.JoinOfSplit | entrypoint.py:100-100 | splitting a name loses nothing, so different names have different paths |
| ConfigOverrides.SecondDecodingIsRaw | entrypoint.py:31-67 | only a raw value can be decoded a second time, or fail to be |
| ConfigOverrides.RawSetsText | entrypoint.py:31-67 | every text can be set behind raw, unless it starts like an array |
| ConfigValues.BoolReads | entrypoint.py:38-43 | behind bool the word true, in any case of its letters, is true and anything else false |
| ConfigValues.NumReads | entrypoint.py:38-50 | behind num is a number, or the variable is ignored |
| ConfigValues.ArrReads | entrypoint.py:38-61 | behind arr is an array in brackets that decodes, or the variable is ignored |
| ConfigValues.TextReads | entrypoint.py:31-67 | without a colon, and behind any other prefix, the whole value is text |
| ConfigValues.RawReads | entrypoint.py:63-116 | behind raw text is text, but text that starts like an array is decoded on assignment, or assigns nothing |
| ConfigOverrides.ApplyEnvironment | entrypoint.py:137-144 | the loop applies the overrides of the environment in order |
| ConfigOverrides.EnvironmentOrderDoesNotMatterIff | entrypoint.py:137-144 | the order of the environment has no effect exactly if no assigned name goes on in another, or has two values |
| ConfigOverrides.EveryVariableIsRead | entrypoint.py:137-144 | under that condition every variable's value is read back under its name |
| ConfigValues.ValuesReadBack | entrypoint.py:137-144 | under that condition a variable set to a bool, a number or text reads back under its name as that |
| ConfigValues.IgnoredVariable | entrypoint.py:137-144 | variables of other names, and numbers and arrays that do not read, have no effect |
| ConfigOverrides.UnnamedPathsUnchanged | entrypoint.py:137-144 | paths incomparable with every name keep their values |
| ConfigOverrides.ClashingNamesDependOnOrder | entrypoint.py:137-144 | for names where one goes on from the other, the order matters |

## Left out

- BatchSteps.StepPreserves: submissions, reports and drops are atomic steps, though the handler is called without being awaited (src/crons/transaction.processor/batch.transaction.processor.service.ts:141) and the controller awaits its duplicate check; interleavings inside a step are not modelled.
- BatchOrder.EveryRunIsSafe: no batch lists a transaction twice, and the chain reports the sender who signed, which the model writes into the hash.
- BlockReports.HandlingIsARun: asks that no other cached batch has a transaction listed for one; otherwise starting that batch's group while the block is handled can change the entry after it was read.
- BatchSteps.ReportLost: ids contain no semicolon, which separates the fields of a stored entry.
- TransactionBatches.BatchTransactionProcessor.StartTransactionGroup: the gateway is assumed to answer with the hash computed at submission; the error text of a refused item is not modelled.
- The form in which a batch is shown to clients, where open items of an invalid batch appear as invalid.
- The `onBatchUpdated` notifications: they are grouped by batch id alone and have no effect on the caches.
- Errors of the cache, and of the transaction lookup while dropping, which end one step early.
- TpsWarmer.Warmer.ProcessTpsForShard: every nonce has a block, and a run is cut short only between nonces.
- TPS history and maximum, total transaction counts (`incrementTotalTransactions`), and the expiry of buckets.
- NftPaging.ProcessNfts: a page is any list that satisfies the query and is sorted by timestamp, newest first; a `before` of 0, which the query reads as no bound, is not modelled.
- The predicates that decide whether an NFT needs work: the handler and its outcome are parameters.
- EsdtRequests.RunPreserves: the time to live of cached values is an expiry step that may happen at any point; metrics are left out.
- Keybase.KeybaseService.ConfirmIdentity: looking up an address twice gives the same answer within one run.
- StakeShares.GetStakeDistribution: shares are integers in hundredths; that a provider's address is never the word direct is assumed.
- IdentityGroups.GroupNodes: avatar, description and other profile fields are carried along by the code and left out here.
- Scores, APR, the stake percentage with its rounding through floating point, queued and auctioned counts, and paging and filtering of identities.
- IdentityRanking.SortIsUnique: nothing shows that the library's `sortedDescending` is stable, so the order among equal numbers of validators is left open.
- IdentityRanking.CompareIsLexicographic: stakes are compared as integers, not as floating-point numbers.
- MexTokens.GetAllMexTokens: prices and values are real numbers that are always present; volumes are whole numbers.
- AccountKeys.LookAheadIsOnePass: entries are status names or node keys; decoding them from base64, and `createNotStakedNodes`, `createAccountKeys` and `updateQueuedNodes` are not modelled.
- TokenRoleStream.ProcessEncodedAddressesAndRoles: values arrive decoded, as an address, null or a role; role names are a datatype with the two that have flags.
- Applying token roles to a collection's own fields (`applyCollectionRoles`).
- LockedAsset.GetUnlockMilestones: percentages of the precise schedule are integers in thousandths, so the division is exact.
- AccountIndex.ReconciledIffComplete: the row limit of the query for indexed addresses shows only as the completeness condition.
- The reconciliation of account assets, which has the same shape.
- ConfigStore.ConfigFile.ModifyVariable: dictionary objects are reached by one path each, as in a file without YAML anchors; lists are scalars.
- ConfigOverrides.ApplyEnvironment: what `int` and `json.loads` accept is a parameter; a raw value that decodes to a JSON object is taken as a scalar, so later overrides do not descend into it.
- The overrides of the dapp configuration: they call `modify_json_variable`, which is defined nowhere; the first `modify_yaml_variable` is shadowed by the second.

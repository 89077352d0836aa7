# Verification model of the block mirror

The repository copies Bitcoin blocks from one node to another through an object store. A provider reads blocks from its
node and uploads each as an object named by its hash; when a whole height range is old enough it also publishes a range
index, the hashes of the range packed into one object. A user's submitter resolves heights to hashes, through the
indexes or through its own node's headers, downloads and checks the blocks, and submits them in height order.

This project models that logic in Dafny and proves what it promises over every input, every run and every interleaving.

- `Prelude`, `Hex`, `RangeIndex`, `BlockHash`, `ObjectKeys`: bytes, the index codec, the display hash, object names.
- `BlockTree`, `Services`: the node as a chain in a parent-linked tree, and the create-once store. Any request may
  fault; faults are counted, so that an error can be traced to one.
- `UploadPool`, `Uploads`, `Probes`, `Ranges`, `OneShot`, `OneShotStore`: uploading a span of heights through the worker pool, skipping
  what is there by probing, range arithmetic, and the one-shot uploader with what a call of it stores.
- `FollowerModel`, `FollowerCache`, `Publishing`, `UploadFollower`: the reorganisation-aware follower. `FollowerModel`
  says what one call does, `UploadFollower` is the class that does it, method by method.
- `FollowLoop`, `FollowerRuns`, `FollowerTail`, `FollowerStart`, `FollowerIndexes`, `FollowerFaults`, `FollowerProgress`: the loop of calls, and what
  holds over whole runs of it. `TailHole` and `StaleIndex` hold the runs in which something goes wrong.
- `PublishSafety`: several followers interleaved, one store request at a time.
- `IndexCache`, `HeaderWalk`, `Resolution`: how the submitter resolves a height and verifies a download.
- `Pipeline`, `PipelineOutcome`, `SubmitPipeline`: the submit pipeline as a step relation over its goroutines, its
  outcome under every interleaving, and its main goroutine and workers as a class. `LookAhead` is a plan on which
  resolving ahead costs blocks. `Tally` is the weight that both worker pools' measures share.
- `EndToEnd`: follower and pipeline put together.

Three shapes recur. A concurrent protocol is a step relation (`Enabled`, `Apply`) with an invariant, a progress lemma and
a measure that every step lowers. An object whose methods update its fields is a class whose methods are tied to a
function of the state before the call, and the laws are proved about that function. A run is a sequence of states or
moves, and a law over runs is an induction over it.

## What is assumed

- The node shows one chain during a call of an uploader; it may show any other between two calls. Over one run of the
  submitter the bucket, the header view and the node's answers (as a function of what it was given so far) are fixed.
- Heights stay below the top of uint64, so a range in use never wraps; the guarded helpers are proved in range everywhere.
- Hashes come from the node in lower-case hexadecimal, 64 characters.
- SHA-256 is a parameter: nothing is assumed of it.
- Probing speaks about one chain's blocks; the store may hold anything.

## Where the code does less than its documents say

- DESIGN.md (lines 174-188 and 205-215) has the provider check every block of a range before it publishes the range's index.
  The one-shot uploader probes every hundredth block instead, and an index can go out over a missing block:
  `OneShot.IndexOverGap` gives one for every chain that is long enough, `OneShot.NewIndexCompleteIff` the exact condition, and
  `Probes.CompleteIff` the same for one span. The follower's publishing goes through the whole range and is safe without a condition.
- A follower's first call probes too, so the tail it leaves behind is whole exactly when nothing was missing below the
  probed start (`FollowerTail.InitTailIff`, `TailHole.BrokenTail`). The follower can make such a hole itself, by a first call
  that faults in the pool (`TailHole.SelfMadeHole`, `TailHole.PoolLeavesHole`); it cannot with a single worker
  (`FollowerStart.OneWorkerCoversTheTail`), nor as long as no first call faults (`FollowerStart.NoFaultStartsWhole`).
- DESIGN.md calls range bins deterministic (line 198). After a fault a bin can be there that the follower has not noted, and if the chain
  then changes below it, a later call passes the range with the other chain's bin: `StaleIndex.StaleIndexRun` is such a run.
  `FollowerFaults.RunsPublishIff` says when, for every run: exactly when the call finds an index that is not the current chain's.
- The pipeline resolves a window ahead. When a later height fails to resolve, blocks that a one-at-a-time run would still
  have submitted are not: `PipelineOutcome.AheadOfSequential` says exactly when the two runs are the same,
  `LookAhead.LookingAheadLosesBlocks` is a plan on which they are not.
- Two heights that are resolved through the headers can be answered from two branches (`HeaderWalk.AnswersOnTwoChains`); they are on
  one chain exactly when the tips chosen for them meet at the lower one (`HeaderWalk.AnswersOnOneChainIff`).

## Model

| member | source | states |
|---|---|---|
| `RangeIndex.Encode` | rangeindex/rangeindex.go:44-61 | exactly rangeSize decodable hashes are packed; otherwise the zero size, the wrong count, or the first hash that does not decode is reported |
| `RangeIndex.HashAtPacked` | rangeindex/rangeindex.go:44-78 | reading back each height of a packed range gives the lower-case form of the hash packed for it |
| `RangeIndex.HashAtPackedExact` | rangeindex/rangeindex.go:44-90 | for hashes in RPC form the read hash is the very hash that was packed |
| `RangeIndex.PackedUnpacked` | rangeindex/rangeindex.go:64-90 | every bin of the right length packs again, byte for byte, from its own answers |
| `RangeIndex.StartHeightCovers` | rangeindex/rangeindex.go:15-20 | a range starts at a multiple of the size, at or below each height it holds and less than one size below it |
| `RangeIndex.StartHeightOfMember` | rangeindex/rangeindex.go:15-41 | an aligned start is the range start of every height in its range |
| `Hex.DecodeEncode` | rangeindex/rangeindex.go:77-90 | bytes written as hexadecimal read back unchanged |
| `Hex.EncodeDecode` | rangeindex/rangeindex.go:64-90 | text that decodes is written back in lower case |
| `BlockHash.FromRawBlock` | blockhash/blockhash.go:12-24 | fails exactly below 80 bytes; otherwise gives a 64-character lower-case hash, the reversed double digest of the header |
| `BlockHash.ReverseInPlace` | blockhash/blockhash.go:20-22 | the two-index swap loop leaves the reversal of what was in the array |
| `BlockHash.HashDecodes` | blockhash/blockhash.go:12-24 | the display hash decodes to the digest turned around, so no part of the digest is lost |
| `ObjectKeys.NameInjective` | rangeindex/rangeindex.go:23-41 | two object keys have one name only if they are the same key, over all sizes, starts and hashes |
| `ObjectKeys.BlockKeyOfHash` | r2store/store.go:109-119 | a hash in RPC form is accepted and names its own block object |
| `ObjectKeys.BlockKeyIsHash` | r2store/store.go:109-119 | every accepted block key names 64 characters of hash |
| `ObjectKeys.TrimSpaceMeans` | r2store/store.go:109-119 | what trimming cuts off is white space, what is left neither starts nor ends with it, and nothing is left exactly of blank text |
| `BlockTree.SameHashSamePast` | sync.go:353-358 | chains that agree at one height agree at every height below it; a lemma from parent links, not an assumption |
| `BlockTree.ChainIsChainOf` | sync.go:353-358 | a linked chain is exactly the ancestors of its last block |
| `Services.Backend.PutObject` | r2store/store.go:172-197 | conditional create: an object that is there stays as it is and the call succeeds; a faulty request may have landed |
| `Services.Backend.ObjectExists` | r2store/store.go:148-169 | says whether the key is in the store, unless the request faults |
| `Services.Backend.BlockExists` | r2store/store.go:131-137 | rejects text that is no hash, otherwise says whether the block is stored |
| `Services.Backend.UploadBlock` | r2store/store.go:122-128 | rejects text that is no hash without a request, otherwise creates the block object at most once |
| `Uploads.GetUploadBlockState` | sync.go:826-836 | the height's hash and whether its block is stored |
| `Uploads.UploadBlock` | sync.go:798-824 | the block is stored afterwards and the answer says whether it had to be; a faulty call leaves the store as it was or with that block |
| `Uploads.UploadBlocksFrom` | sync.go:724-796 | a clean call stores every block of the span and nothing else and counts the store's growth; a faulty one leaves something in between and says so |
| `Uploads.OneByOne` | sync.go:725-740 | the same for the loop of a single worker |
| `Uploads.ThroughPool` | sync.go:742-796 | the same for the pool under an arbitrary scheduler |
| `UploadPool.InvKept` | sync.go:742-796 | every step of dispatcher or worker keeps: each dispatched height is held once, processed or lost; the store is the old one plus this call's blocks; counts, error slot and cancellation agree |
| `UploadPool.PoolSuccess` | sync.go:742-796 | a nil error under any interleaving: every height processed exactly once, the store is the old one plus the span's blocks, the count is the store's growth |
| `UploadPool.PoolFailure` | sync.go:742-796 | without a cancellation by the caller the reported error is some worker's own, never one the pool's cancel induced; only blocks of the span were added |
| `UploadPool.NoWorkerOutlivesTheCall` | sync.go:770-795 | when the call has returned every worker has left |
| `UploadPool.Progress` | sync.go:742-796 | until the call returns some step that is no failure is possible; the dispatcher is not stuck when all workers have left |
| `UploadPool.MeasureDrops` | sync.go:742-796 | every step lowers a measure |
| `UploadPool.RunsAreBounded` | sync.go:742-796 | so no run is longer than the measure of its start |
| `UploadPool.EveryRunCanReturn` | sync.go:742-796 | from every reachable state the call can go on to its return without a further failure |
| `Probes.CollectProbeHeights` | sync.go:625-635 | the loop collects the heights first + i * step, the last of them less than a step below the tip |
| `Probes.CheckProbes` | sync.go:646-708 | whatever order the workers answer in, the answers come back in probe order |
| `Probes.FindUploadStart` | sync.go:600-623 | the start is one window before the first missing probe, or the last window when none is missing |
| `Probes.UploadStartIs` | sync.go:600-635 | for every store: the first height when the first probe is missing, otherwise the probe before the first missing one, and the last window of step heights when no probe is missing |
| `Probes.UploadBlocks` | sync.go:589-598 | uploads from the probed start; an empty span does nothing |
| `Probes.UploadStartInSpan` | sync.go:710-722 | the start lies in the span for every store: no subtraction wraps |
| `Probes.VouchedStart` | sync.go:600-623 | when a stored probe vouches for the blocks back to the probe before it, everything below the start is stored |
| `Probes.NoGapsVouch` | sync.go:600-623 | in a store whose blocks of the span are a prefix, probes vouch |
| `Probes.CompleteIff` | sync.go:589-623 | after a clean upload the span is complete if and only if nothing was missing below the probed start |
| `Probes.GapIsLeft` | sync.go:589-623 | a store for every chain of more than 101 blocks on which a clean upload leaves a block out |
| `Probes.SecondStart` | sync.go:600-623 | probing again after an upload starts at or above the first start, and there is nothing left to upload from there |
| `Ranges.GuardsHold` | sync.go:333-338 | end of range and next start stay in uint64 for every start and size, and are exact wherever the range fits |
| `Ranges.SettingsCome` | sync.go:77-95 | a range size of zero means 2500, no number of workers means 4, and uploading ends at the lower of the tip and toHeight |
| `Ranges.RangeBinAnswers` | sync.go:563-587 | a bin built from a chain answers with that chain's hash at each height of the range |
| `Ranges.UploadRangeIndexIfMissing` | sync.go:545-561 | creates the chain's bin unless an index is there, and says whether it did |
| `Ranges.UploadRangeIndex` | sync.go:563-587 | reads the range's hashes and creates exactly their bin |
| `OneShot.UploadOnce` | sync.go:77-153 | a clean call takes the store to the walk's result; a faulty one leaves something between the two |
| `OneShot.OneRange` | sync.go:114-150 | one range's turn: skipped if its index is there, otherwise its blocks and, when ready, its index |
| `OneShot.SecondCallWritesNothing` | sync.go:77-153 | a second call on an unchanged chain changes nothing, for every setting and every starting store, gaps included |
| `OneShotStore.CallStoresBlocks` | sync.go:77-153 | a clean call, block by block: stored afterwards if and only if it was stored before, or its height is between the managed start and the end height, its range had no index, and it is not below that range's probed start; ranges that are not ready included |
| `OneShotStore.CallStoresIndexes` | sync.go:108-146 | index by index: there afterwards if and only if it was there before, or its range is managed, complete up to the end height and stableDelay deep |
| `OneShotStore.CallAddsOnly` | sync.go:77-153 | and nothing else: what is new is a block of those heights as the node has it, or such a range's index as the chain has it |
| `OneShotStore.NoGapsAllStored` | sync.go:77-153 | from a store without gaps and without managed indexes every block from the managed start to the end height is stored |
| `OneShot.NewIndexCompleteIff` | sync.go:139-146 | a newly published range has all its blocks if and only if none was missing below the probed start |
| `OneShot.IndexOverGap` | sync.go:139-146 | a concrete store on which a call publishes an index over a missing block |
| `UploadFollower.UploadFollower.constructor` | sync.go:178-202 | a new follower is uninitialised, with nothing cached and the managed start as its next range |
| `UploadFollower.UploadFollower.PruneRecentHashes` | sync.go:529-536 | keeps exactly the cached heights between the cache start and the end height |
| `UploadFollower.UploadFollower.RefreshRecentHashes` | sync.go:500-516 | reads the chain's hashes of a span into the cache, then prunes; a fault leaves a prefix of the span read |
| `UploadFollower.UploadFollower.FindCommonAncestor` | sync.go:438-460 | finds the greatest height, down to the cache's floor, at which cache and chain agree, or says that the search met the published boundary |
| `UploadFollower.UploadFollower.UploadIncrement` | sync.go:340-381 | refuses, or uploads the chain above the fork and leaves the cache the chain's own segment; a fault leaves a refresh cut short at most |
| `UploadFollower.UploadFollower.UploadReorg` | sync.go:383-436 | the same once the compared hash is known to differ |
| `UploadFollower.UploadFollower.ReorgStart` | sync.go:383-415 | the first height above the fork, or the refusal, exactly as the boundary demands |
| `UploadFollower.UploadFollower.RebuildFrom` | sync.go:416-436 | uploads the new branch and replaces the cache from its first height on |
| `UploadFollower.BranchSwitched` | sync.go:423-435 | dropping the old branch, reading the new one and pruning leaves exactly the current chain's segment from the cache start to the end height |
| `UploadFollower.UploadFollower.PublishStableIndexes` | sync.go:462-498 | publishes range after range while they are complete and deep enough, blocks before their index; stops part way on a fault |
| `UploadFollower.UploadFollower.FindInitialUploadStart` | sync.go:293-316 | skips the ranges that have an index, up to the first that has none |
| `UploadFollower.UploadFollower.EnsurePublishedBoundaryVisible` | sync.go:318-331 | refuses exactly when something is published and the end height is below its last height |
| `UploadFollower.UploadFollower.Initialize` | sync.go:260-291 | the whole first call: search, boundary check, blocks, indexes, cache |
| `UploadFollower.UploadFollower.SettleFirst` | sync.go:279-291 | the end of a first call: indexes, cache, and the marks that it was made; a fault leaves the follower uninitialised |
| `UploadFollower.UploadFollower.UploadOnce` | sync.go:205-250 | every call is a step of the call relation, writes each index after its blocks (and, with one worker, a first call's blocks from the probed start upwards), keeps the follower's invariant, and answers with a fault if and only if a request faulted |
| `FollowLoop.Follow` | cmd/fractal-block-sync/main.go:102-132 | however the node moves between calls and whatever each call answers, the loop of calls is a run, so all laws over runs hold of it |
| `FollowerModel.LastAgree` | sync.go:438-460 | the answer is an agreement, and no higher cached height agrees |
| `FollowerRuns.FirstUnindexedMeans` | sync.go:293-316 | the search skips exactly the ranges that have an index and stops, aligned, at the first that has none, past the end, or at the top of uint64 |
| `FollowerProgress.FirstCallRefuses` | sync.go:260-331 | without a fault a first call refuses if and only if the store has the index of a range that the chain enters but does not complete, and of every managed range before it; it then writes nothing, and otherwise succeeds |
| `Publishing.PublishToMeans` | sync.go:462-475 | publishing stops at an aligned height; every range before it was within the end height and stableDelay deep, and the next one ends above the end height or less than stableDelay deep |
| `Publishing.PublishedMeans` | sync.go:462-498 | after publishing, each range's blocks and index are there, a new index is the chain's bin, and nothing else was added |
| `FollowerProgress.DueIsPublished` | sync.go:462-498 | after a successful call a range has an index if and only if it had one before, or is managed, complete up to the end height and stableDelay deep; the next range is past all of those and is not one itself |
| `FollowerProgress.RunsPublishWhatIsDue` | sync.go:205-498 | the same after every successful call of every run, from any store and after any faults |
| `FollowerProgress.FirstCallStores` | sync.go:260-291 | block by block, a successful first call: what was there, the blocks from the probed start to the end height, and the ranges that were passed |
| `FollowerProgress.LaterCallStores` | sync.go:340-498 | block by block, a successful later call: what was there, the chain above the fork, and the ranges that were passed |
| `FollowerProgress.ResultTells` | sync.go:204-250 | a successful result counts the new blocks and the new indexes, each by itself, and says waiting if and only if the call created nothing and the end height is the last tip |
| `FollowerCache.TrueFork` | sync.go:383-460 | below the first uploaded height the cache is the chain's own segment, from there up to the compared height they agree nowhere; nothing published is touched |
| `FollowerCache.RefusesIffNoAgreement` | sync.go:383-415 | a call refuses if and only if something is published and the search finds no agreement |
| `FollowerRuns.InvKept` | sync.go:205-244 | every call, faulty or not, keeps the cache one segment of one chain and the next range aligned, and never takes a published range back |
| `FollowerRuns.RunsKeepTheCache` | sync.go:205-244 | after any mix of successful, refused and faulty calls the cache at or below the last tip is one contiguous segment of a single chain |
| `FollowerTail.SuccessCache` | sync.go:260-291 | after a success past the FromHeight check the cache is exactly the current chain from the last published height, or the managed start when nothing is published, to the last tip |
| `FollowerRuns.ExactRefusal` | sync.go:318-415 | without a fault, refusal if and only if something is published and the tip is below its last height or the chain differs there; a refusal changes nothing |
| `FollowerRuns.UploadsAboveTheFork` | sync.go:383-460 | a reorganisation uploads exactly the new chain's heights above the highest one where old and new chain agree |
| `FollowerTail.NoGapsStartWhole` | sync.go:272-279 | a store without gaps on the first call's chain satisfies the condition of the coverage theorem |
| `FollowerTail.CoveredKept` | sync.go:260-436 | every call, faulty or not, keeps: each cached hash from the next range on names a stored block; the call that initialises must start on a store with nothing missing below its probed start |
| `FollowerTail.RunsCoverTheTail` | sync.go:205-436 | if nothing was missing below the probed start at initialisation, after each successful call every block of the current chain from nextIndexStart to the last tip is stored, whatever extensions, rollbacks, reorganisations or faults came before |
| `FollowerTail.InitTailIff` | sync.go:260-291 | told before the call, from the start its search will find and the height publishing will reach: the tail is whole afterwards if and only if no block of it is missing below the probed start |
| `FollowerStart.NoFaultStartsWhole` | sync.go:205-291 | the condition of the coverage theorem holds when no call faulted before the first successful one and the store had no gap |
| `FollowerStart.OneWorkerStartsWhole` | sync.go:205-291 | with a single worker it holds from a store without gaps whatever calls faulted before |
| `FollowerStart.OneWorkerCoversTheTail` | sync.go:205-436 | so with a single worker the tail is covered after every successful call of every run from such a store |
| `TailHole.BrokenTail` | sync.go:260-291 | on every chain of more than 101 blocks a store from which a first call leaves a block of the tail out |
| `TailHole.SelfMadeHole` | sync.go:205-291 | from an empty bucket, on one unchanging chain: a first call that faults and a second that succeeds and leaves a block of the tail out |
| `TailHole.PoolLeavesHole` | sync.go:742-796 | an interleaving of two pool workers, without a cancellation, that fails by a worker's own error and leaves just the store of that run |
| `FollowerIndexes.RunsPublishTheChain` | sync.go:462-498 | in runs without faults from a store without indexes, after each successful call every managed range below nextIndexStart has an index, the current chain's bin, and its blocks are stored |
| `FollowerFaults.PublishIff` | sync.go:462-498 | publishing leaves all ranges up to its stop as the chain has them if and only if those up to its start were so and every index it found is the chain's |
| `FollowerFaults.InitIndexesIff` | sync.go:260-316 | after a first call on any store, if and only if every index found for a passed range is the chain's and the blocks of the skipped ranges are stored |
| `FollowerFaults.IncrementIndexesIff` | sync.go:205-244 | after a later call, if and only if they were so before and every index found for a range it passed is the chain's |
| `FollowerFaults.RunsKeepIndexes` | sync.go:205-587 | over every run with any faults, each index was published, after its blocks, for a chain that some call saw, and only ranges with an index are passed |
| `FollowerFaults.RunsPublishIff` | sync.go:205-587 | over every run with any faults, after each successful call the passed ranges are the current chain's if and only if every index the call found for one of them is |
| `FollowerFaults.OneBranchPublishes` | sync.go:205-587 | as long as all chains seen are parts of one chain, they always are, faults or not |
| `StaleIndex.StaleIndexRun` | sync.go:293-331 | a run of two calls with one fault that passes a range whose index is another chain's |
| `FollowerIndexes.PublishedAnswers` | sync.go:462-587 | such an index answers with the current chain's hash at every height |
| `FollowerIndexes.SeenFrom` | sync.go:318-331 | ranges published on one chain are those of every chain through the same boundary block |
| `PublishSafety.InvKept` | sync.go:462-587 | every store request of every follower keeps publishing safe, requests that land and fault included |
| `PublishSafety.PublishingIsSafe` | sync.go:462-587 | however followers interleave, an index exists only with all its blocks stored, as the chain's bin, and was within end height and stable depth for its creator; a follower has passed published ranges only |
| `PublishSafety.PublishedAnswersRight` | sync.go:563-587 | each such index answers with the chain's hash at every height of its range |
| `PublishSafety.ObjectsNeverChange` | r2store/store.go:172-197 | what is in the store at one point of a run is in it unchanged at every later point |
| `IndexCache.SubmitRangeIndexCache.HashAt` | sync.go:1233-1259 | a lookup moves the cache's fields and answers as the cache function says |
| `IndexCache.DirectMeans` | sync.go:1273-1290 | what a lookup tells by what the bucket answers for the range's index: missing, unavailable, unreadable exactly when it has the wrong length, and otherwise the 32 bytes at the height's place |
| `IndexCache.CacheIsInvisible` | sync.go:1216-1290 | over a fixed bucket every sequence of lookups through the cache gets the answers of direct lookups, errors included |
| `IndexCache.HashesStayRight` | sync.go:1216-1259 | over a growing bucket, from any cache whose entry is right, every hash the cache answers with is the direct lookup's, then and later |
| `IndexCache.OneDownloadPerRange` | sync.go:1233-1259 | while no download breaks, and however the bucket changes between lookups, a run of consecutive heights costs at most one download for each range it touches, ranges without an index included |
| `HeaderWalk.BestChainTip` | sync.go:1325-1338 | the loop computes the best tip |
| `HeaderWalk.BestIsFirstMaximum` | sync.go:1325-1351 | the best tip is the first maximum by status rank and height among usable tips that reach the target, and is missing exactly when none does |
| `HeaderWalk.FirstMaximumIsUnique` | sync.go:1325-1351 | there is only one first maximum |
| `HeaderWalk.BestByStatus` | sync.go:1325-1351 | told by the statuses: an active tip if any usable one is, otherwise headers-only, otherwise a valid fork or valid headers, otherwise any; among those the highest, among these the first |
| `HeaderWalk.WalkStops` | sync.go:1302-1322 | on any headers, well linked or not, the walk goes down one trail, and its answer says how that trail ends |
| `HeaderWalk.ResolveRecentHash` | sync.go:1292-1323 | the loop makes at most limit plus one header requests and answers as the walk function says |
| `HeaderWalk.WalkFindsAncestor` | sync.go:1302-1322 | on well-linked headers the walk answers with the ancestor exactly when it is within the limit, and otherwise with the limit error |
| `HeaderWalk.RecentIsAncestorOfBestTip` | sync.go:1292-1338 | the whole resolution: no usable tip, the best tip's ancestor, or the limit error, each exactly when it should be |
| `HeaderWalk.AnswersOnOneChainIff` | sync.go:1292-1338 | two heights answered from one well-linked view lie on one chain if and only if the tips chosen for them have the same ancestor at the lower one |
| `HeaderWalk.AnswersOnOneChain` | sync.go:1292-1338 | in particular when the lower height's tip reaches the higher one |
| `HeaderWalk.AnswersOnTwoChains` | sync.go:1325-1351 | and the tips need not meet: a view in which they do not, with the two answers on two branches |
| `Resolution.ResolveHash` | sync.go:1137-1164 | resolving through the cache gives what the cacheless resolution gives, and keeps the cache right |
| `Resolution.ResolveMeans` | sync.go:1137-1164 | for every view and height: above the headers the index is consulted only when bootstrapping; an index that cannot be had or read is an error at every height; a missing one means to wait above the headers, and only at or below them do the headers decide |
| `Resolution.ResolveWithoutRanges` | sync.go:1137-1158 | without a range size every consulted height is an error |
| `Resolution.DownloadAndVerify` | sync.go:1185-1214 | the offered bytes pass exactly when their header hashes to the wanted hash, and each failure says what was wrong with the offer: none, too short, or of another hash |
| `Resolution.VerdictSettles` | sync.go:1185-1214 | that verdict leaves no other result open |
| `Resolution.FetchedIsVerified` | sync.go:1195-1208 | only a block whose header hashes to the wanted hash passes |
| `Resolution.StopWithoutBootstrap` | sync.go:1137-1142 | without bootstrapping resolution stops no later than one above the headers, and waits nowhere else |
| `Pipeline.InvKept` | sync.go:1020-1183 | every step of main goroutine or worker keeps the window, the places, the contents, the control state and the promised outcome |
| `Pipeline.WindowHolds` | sync.go:1024-1135 | in every reachable state ready and pending split the scheduled heights, are within the window, all workers are there, each pending height is in exactly one place, and both channels have room for the next send |
| `Pipeline.SendsNeverBlock` | sync.go:1024-1035 | a send on the job or the result channel never blocks |
| `Pipeline.WaitingEnds` | sync.go:1088-1104 | while the main loop waits the current height is pending, and a result is there or some worker can step |
| `Pipeline.Progress` | sync.go:1020-1183 | until the call returns some step is possible, and without the caller's cancellation one that cancels nothing |
| `Pipeline.MeasureDrops` | sync.go:1043-1135 | every step lowers the weighted count of what is left to do |
| `Pipeline.RunsAreBounded` | sync.go:1043-1135 | so every run ends |
| `Pipeline.EveryRunCanReturn` | sync.go:1020-1183 | from every reachable state the run can go on to its return without a cancellation by the caller |
| `PipelineOutcome.OutcomeIsAhead` | sync.go:1020-1135 | every uncancelled run ends with the submissions and the result of one goroutine that resolves a window ahead, and no worker outlives it |
| `PipelineOutcome.ScheduleIndependence` | sync.go:1020-1183 | two uncancelled runs submit the same heights and blocks in the same order and return the same result or error |
| `PipelineOutcome.SubmissionsArePrefix` | sync.go:1051-1104 | at any moment of any run, cancelled or not, what was submitted is a prefix of what the undisturbed run submits |
| `PipelineOutcome.AheadOfSequential` | sync.go:1043-1135 | resolving ahead submits a prefix of the one-at-a-time run, and is the same run if and only if the stop is a wait, or some height below the one at which the stop comes into the window cannot be passed, or the window reaches no further than the height at hand |
| `PipelineOutcome.EndsAtObstacle` | sync.go:1043-1135 | the one-at-a-time run ends below a height exactly when some height below it has no block, or a block the node does not take after those before it |
| `PipelineOutcome.AheadGivesUp` | sync.go:1082-1116 | where the two differ, the pipeline has submitted exactly the blocks below the height at which the stop comes into the window |
| `LookAhead.LookingAheadLosesBlocks` | sync.go:1047-1116 | a plan on which they differ: heights 1 and 2 can be had, 3 cannot be resolved, and with a window of 3 nothing is submitted where the other run submits two blocks |
| `PipelineOutcome.PipelineRefinesSequential` | sync.go:1020-1183 | every interleaving submits a prefix of the one-at-a-time run, and is that run when resolution stops for a wait |
| `PipelineOutcome.AheadMeans` | sync.go:1051-1095 | submissions are the heights in order with their verified blocks; a clean outcome has all of them up to the stop |
| `PipelineOutcome.CleanStop` | sync.go:1051-1095 | a clean return leaves nothing ready or pending, has submitted every height up to the first that waits, and reports the counts, that height and what it waits for |
| `PipelineOutcome.OutcomeTells` | sync.go:1051-1106 | at any moment of any run nothing is submitted after a block the node did not take; a clean result has every block accepted, already known, or counted by the node after a broken reply; an error names the height it stopped at and the reply, the download or the resolution that was wrong there; the report counts the blocks that were taken |
| `SubmitPipeline.PlanOf` | sync.go:947-982 | zero settings become 2500, 16 and 4, others are kept; the first height is one above the node's blocks |
| `SubmitPipeline.SettingsHold` | sync.go:947-1106 | over every run of such a plan the window and the number of workers hold, and a clean run without bootstrapping submits exactly the heights above the node's blocks up to its headers and waits for headers only |
| `SubmitPipeline.SubmitPipeline.Schedule` | sync.go:1121-1133 | queues the next height; the job channel has room, and the invariant is kept |
| `SubmitPipeline.SubmitPipeline.OneWorkerStep` | sync.go:1166-1183 | a worker takes a job, downloads and verifies it, or hands over the result, keeping the invariant and lowering the measure |
| `SubmitPipeline.SubmitPipeline.FillWindow` | sync.go:1108-1135 | fills the window or meets the stop, keeping the invariant and lowering the measure while workers interfere |
| `SubmitPipeline.SubmitPipeline.SubmitReady` | sync.go:1052-1085 | submits the block at the current height, keeping the invariant, and refills behind it |
| `SubmitPipeline.SubmitPipeline.Await` | sync.go:1098-1104 | a result always comes |
| `SubmitPipeline.SubmitPipeline.Shutdown` | sync.go:1037-1041 | every worker leaves once the outcome is settled |
| `SubmitPipeline.SubmitPipeline.Run` | sync.go:1020-1106 | whatever the workers do, the node is given and the caller is told what one goroutine resolving ahead would, and no worker is left |
| `EndToEnd.FaithfulKept` | sync.go:798-824 | no call, faulty or not, stores anything but the block itself under a block's name |
| `EndToEnd.PublishedHeight` | sync.go:1137-1214 | at a published height the submitter finds the chain's hash and the chain's block |
| `EndToEnd.Public` | r2store/store.go:228-256 | every store can be read by object name, since no two keys share one |
| `EndToEnd.MirrorOfStore` | sync.go:947-1164 | over a bucket with the ranges below n published, a bootstrapping submitter hands over exactly the chain's raw blocks up to n - 1 and then waits for headers and the index at n |
| `EndToEnd.Mirror` | sync.go:205-1164 | the same from a whole fault-free run of a follower to the end of a whole run of the pipeline, under any interleaving |

## Left out

- HTTP, S3, JSON-RPC, URL escaping, environment settings, command line, logging, timers and polling: plumbing around the modelled calls.
- SHA-256 itself, which is a parameter.
- The text of errors and the substring test for already-known blocks: the node's answer says which kind it is.
- The bench command, which repeats the range walk and the worker pool with counters.
- SubmitNext, the one-block call: one round of the one-at-a-time loop that the pipeline is compared with.
- Behaviour at the top of uint64, beyond the two guarded helpers: chains are shorter than that, and so is a walk limit.
- Chain changes during one call of an uploader, and changes of the header view or the bucket during one run of the submitter.
- Guards of the follower that never fire (a compared height below the managed start, an ancestor at the top of uint64, an upload
  start below the next range): stated as assertions at their places, not written as branches.
- A cancellation by the caller in an uploader counts as a fault; in the pool and the pipeline it is a step of its own.
- Which of several failing probes is reported: any fault is one fault.
- Real time: a worker's download is one step, and no rate or delay is stated.

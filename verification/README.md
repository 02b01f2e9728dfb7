# A verified model of go-header

go-header downloads, verifies, stores and prunes a chain of headers. This project models its parts with
real state, concurrency or arithmetic in Dafny 4.11 and proves what they promise: the header store and
its deletion, the sync loop and its heads, the range session between peers, head selection, the wire
messages, and the text forms of hashes and keys. `dafny verify dfyconfig.toml` checks everything.

## How it is built

- **Headers** are a datatype with one header per height on the chain a node follows (`Chains.Chain`).
  A header's own `Verify` is an uninterpreted function with three kinds of answers: accepted, soft
  failure, hard failure.
- **Objects that change in place are classes** with the source's fields: `Store`, `Batch`, `Datastore`
  and `HeightIndexer`, `HeaderRange` and `Ranges`, `SyncStore` and `Syncer`, `PeerQueue` and
  `PeerTracker`. Their methods are proved against a plain view of the state: a set of heights, a list of
  headers, a `StoreRuns.State`.
- **Concurrent protocols are step systems**: a state, a list of atomic steps, and theorems about every
  run (`Runs.Exec`): `DeleteParallel`, `HeightSub`, the session (`Session`, `SessionPeers`), the callers
  of `SyncStore`, and `SubjectiveHead`. Safety theorems are about all runs; beside them stand theorems
  that from every reached state the system can go on, and to what.
- **The outside world is a parameter**: clocks, handlers, the getter, the network's answers, failures of
  writes, evictions from caches. Where a choice is the environment's, a theorem covers all choices.
- Datastore batches are committed at once and never fail, and the deletes of one sequential deletion are
  seen at once; heights are bounded where uint64 would wrap, except in `Tail`, where not wrapping is
  part of the claim.

| files | source |
|---|---|
| `Store`, `StoreParts`, `StoreRuns`, `Chains` | store/store.go, store/batch.go, store/height_indexer.go |
| `StoreDelete`, `DeleteParallel`, `DeleteParallelRuns` | store/store_delete.go |
| `HeightSub`, `HeightSubCancel`, `Keys` | store/heightsub.go, store/keys.go |
| `Verification`, `HashText` | verify.go, hash.go |
| `Bifurcation`, `SubjectiveHead` | sync/syncer_head.go |
| `SyncStore`, `Ranges`, `Syncer`, `SyncProgress`, `Tail` | sync/sync_store.go, sync/ranges.go, sync/syncer.go, sync/syncer_tail.go |
| `Session`, `SessionPeers`, `HeadQuorum` | p2p/session.go, p2p/peer_stats.go, p2p/peer_tracker.go, p2p/exchange.go |
| `Varint`, `HeaderMessages`, `WireFields` | p2p/pb/header_request.pb.go |
| `Headers`, `Runs`, `Sums` | shared values, finite runs, sums over lists |

## What the proofs found

Some properties one would expect do not hold of the code. Each is stated with a concrete case, next to
the exact condition under which the property does hold.

- **The subjective head can go down.** While the sync loop holds pending headers 5, 6 and 7, delayed
  calls for 5 and 6 can raise the stored head to 6. The batch then starts below the stored head, is
  written without being published, and 7 leaves the pending ranges (`SubjectiveHeadCanFall`). In every
  run, the head falls exactly at a removal of the highest pending header that is not stored
  (`RunLowersExactlyWhen`). As long as no range batch starts below the stored head and ends above it,
  that never happens (`SubjectiveHeadNeverFalls`).
- **The first batch matters.** At every point of every history of batches and crashes, the run the store
  serves is maximal exactly when every height between the first and the last header of the batch that
  initialised the store is present, and the same holds of the saved run and the disk
  (`RunIsMaximalExactlyWhen`). A first batch 1, 3 or 3, 1 leaves a wrong run (`AscendingOverHole`,
  `DescendingOverHole`).
- **A deletion can leave a run that is not maximal.** Deleting from the tail keeps the run maximal exactly
  when the height below the new tail was deleted; if it was only pending, or kept by a handler, the next
  batch takes the tail back to it (`TailDeletionStaysMaximalExactlyWhen`).
- **A handler's not-found error is taken for a missing header.** `deleteSequential` and `deleteParallel`
  test the error of the whole deletion, so a handler whose error wraps the datastore's not-found error
  makes the tail pass a header that stays: exactly the headers only pending, or answered so with all
  handlers before fine (`WhatStays`, `HandlerCanKeepHeader`). In parallel it happens for every range of
  two heights or more and every number of workers (`HandlerNotFoundIsPassedOver`).
- **A missing height can make a parallel deletion fail.** A worker keeps the not-found error of its last
  job. With two or more workers every run over a range returns nil exactly when every height is deleted;
  with one worker, when no height fails and the top one is deleted (`NilExactlyWhen`). Any missing
  height can be a worker's last job (`MissingHeightCanFail`), and a missing top height always is one
  (`MissingTopIsReported`). After such a failure headers above the returned height may be gone: in the run
  of `MissingHeightCanFail` every header above the missing one that can be deleted is, if none fails.
- **The empty-store path of `syncStore.Append` can lower the cached head** if the wrapped store got
  headers in another way meanwhile (`InitialisationCanLower`). In every run the cached head falls
  exactly when that path publishes a head below it (`RunFallsExactlyWhen`).
- **A session without a trusted header can return other heights than asked.** Completed runs always
  return the range exactly when the session validates or no request is for more than one header
  (`ReturnsTheRangeExactlyWhen`, with the run of `UnvalidatedCanSkip`). The exchange itself always
  validates (p2p/exchange.go:318-326); only a test builds a session that does not.
- **SetHeight can return before a waiter below its height is woken**, if a concurrent SetHeight to a
  greater height has raised the height and still waits for the lock (`OvertakenSetHeight`). When a
  SetHeight returns, a waiter at or below its target sleeps exactly when its channel is registered, and
  then such another call will notify it (`SetHeightReturnsReached`).
- **A cancelled wait can wake another one that nothing notified.** If a waiter is notified and cancelled at
  once, it takes one off the count of whoever registered for that height meanwhile
  (`CancelCanWakeAnother`). It happens exactly when the count of a channel is one and another waiter is on
  it (`CancelWakesAnotherExactlyWhen`); without Notify calls the count is the number of waiters, and it
  never happens (`CancelWakesNobodyElse`).
- **Pruning from far behind can drop headers that are inside the window**, exactly when the header below
  the estimate is inside it (`FarTailPrunesRecentExactlyWhen`, `FarTailCanPruneRecent`).
- **Hashes of one to ten bytes can share a datastore key with a height** (`ShorterHashesCollide`); longer
  ones never do (`KeysNeverCollide`).
- **A request whose hash variant is nil does not survive the wire**, all others do (`RequestRoundTrip`).

## Model

| member | source | states |
|---|---|---|
| Store.Store.Get | store/store.go:219-241 | lookup by hash over cache, pending batch and datastore finds a header of that hash exactly when one of the heights the store can serve has it, whatever the cache has dropped |
| Store.Store.GetByHeight | store/store.go:269-298 | lookup by height answers like the pointers and the plain map of heights |
| Store.Store.ReadsAgree | store/store.go:269-298 | in a valid store pointers, caches, pending batch and datastore answer like one plain map from heights to headers |
| Store.Store.HasHeaderAt | store/store.go:637-645 | reports exactly the heights pending or indexed |
| Store.Store.GetRangeByHeight | store/store.go:316-341 | on a hash-linked chain the backward walk gives exactly the headers read one by one by height, and fails exactly when one of them is absent, the range is empty, or it ends at height 0 |
| Store.Store.NextHead | store/store.go:647-698 | the new head is reached over present heights only, and the height above it is absent |
| Store.Store.NextTail | store/store.go:700-751 | the new tail is reached over present heights only, and it is 1 or the height below it is absent |
| Store.Store.Flush | store/store.go:520-561 | one commit of everything pending: afterwards every height is on disk and the pointer keys name the served run, whatever they named before; without headers nothing changes |
| Store.Store.FlushPending | store/store.go:468-489 | flushing and resetting the pending batch changes no answer of the store; everything is on disk then, and if there was something to write the keys name the run, whatever they named before |
| Store.Store.HandleWrites | store/store.go:451-489 | one batch is a batch step of StoreRuns: the heights join, and both ends of the run are walked outwards as far as possible; a commit happens exactly when enough is pending or the store stops, and leaves everything on disk and, if it wrote anything, the keys naming the run, whatever they named before; otherwise the disk stays |
| Store.Store.Restart | store/store.go:753-774 | a crash between commits and a restart from the datastore serve exactly the run and the heights of the last commit, if the keys name headers on disk; whatever they hold, each pointer is set exactly when its key names one, a key that names none is deleted, and one that holds no hash is an error |
| Store.Store.ReadByKey | store/store.go:564-594 | a header is read exactly when the key names the hash of one in the store; a key that names none is deleted, one that holds no hash is an error, and otherwise both keys stay |
| StoreParts.Batch.Append | store/batch.go:67-75 | the two maps of the batch stay inverse to each other and gain exactly the heights of the headers |
| StoreParts.Batch.Get | store/batch.go:47-58 | finds a header by hash exactly when one with that hash is pending |
| StoreParts.Batch.DeleteRange | store/batch.go:85-96 | exactly the heights of the range leave, and both maps stay inverse |
| StoreParts.HeightIndexer.HashByHeight | store/height_indexer.go:37-56 | the cached index answers like the datastore, whatever the cache has dropped |
| StoreParts.HeightIndexer.Has | store/height_indexer.go:58-64 | the cached index reports exactly the heights of the datastore |
| StoreParts.JsonRoundTrips | store/store.go:854-871 | the form in which pointer keys keep hashes loses nothing |
| Chains.FirstWalkIsMaximal | store/store.go:613-633 | walking outwards from the first and the last header of a batch ends in one maximal run exactly when every height between them is present |
| Chains.MaximalRunsCoincide | store/store.go:613-633 | two maximal runs of the same heights that meet are the same run |
| StoreRuns.RunIsMaximalExactlyWhen | store/store.go:613-633 | at every point of every history of batches, flushes and crashes the served run is maximal if and only if every height between the ends of the batch that initialised the store is present, and the saved run if and only if they are all on disk |
| StoreRuns.RunsStayMaximal | store/store.go:451-489 | over every history of batches, flushes and crashes in which no batch that initialises the store has a hole between its ends, the served and the saved run are maximal gap-free runs |
| StoreRuns.AscendingOverHole | store/store.go:777-795 | a first batch 1, 3 leaves a run that is not gap-free |
| StoreRuns.DescendingOverHole | store/store.go:777-795 | a first batch 3, 1 leaves a head below the tail |
| StoreRuns.RunIsMaximalAroundFirstBatch | store/store.go:451-489 | after a first batch without holes, [tail, head] is the maximal run containing that batch among all heights appended, in any order, with gaps and repeats |
| StoreRuns.ArrivalOrderDoesNotMatter | store/store.go:451-489 | two histories that append the same heights, and whose first batches are joined by heights appended, end with the same heights and the same run |
| StoreRuns.CrashServesLastCommit | store/store.go:753-774 | over such histories, after a crash the served run is the last saved one, and it is the maximal run of what is on disk |
| StoreDelete.DeletedMeansAllFine | store/store_delete.go:63-67 | a header is deleted only after every handler returned nil for it |
| StoreDelete.DeleteSingle | store/store_delete.go:48-80 | one height leaves the datastore, both caches and the pending batch, or nothing changes: it fails exactly by an expired context or the error of a handler for an indexed height, and is missing exactly when not indexed or called not found by a handler |
| StoreDelete.DeleteSequential | store/store_delete.go:84-114 | it stops at the first height with an expired context, or indexed and failed by a handler, and exactly the deleted heights below it are gone |
| StoreDelete.StopsExactlyAt | store/store_delete.go:103-111 | the stop is exactly the first blocked height or the end of the range; a height that is not indexed never stops a deletion while the context is live, and the headers gone are exactly the indexed ones with all handlers fine |
| StoreDelete.AttemptEnds | store/store_delete.go:48-67 | exactly when an attempt fails, finds nothing, or deletes, in terms of the context, the index and each handler's answer |
| StoreDelete.WhatStays | store/store_delete.go:103-111 | a processed height is still present exactly when it was only pending, or some handler answered not found for it with all handlers before fine |
| StoreDelete.HandlerCanKeepHeader | store/store_delete.go:103-111 | a deletion without an error after which a header below the new tail is still present |
| StoreDelete.DeleteRangeRaw | store/store_delete.go:382-437 | below the threshold the heights are deleted one by one, from it on in parallel; the stop, the error and the heights deleted are those of that path |
| StoreDelete.FinishedRunIsSound | store/store_delete.go:118-234 | what DeleteRange relies on for large ranges holds of every finished run of the parallel protocol whose outcomes fit the index |
| StoreDelete.DeleteInParallel | store/store_delete.go:118-234 | exactly the headers the workers deleted leave the datastore, the caches and the pending batch |
| StoreDelete.SetTail | store/store.go:377-401 | the tail moves to the height; the head follows, and is advanced over present heights, exactly when the tail went over it; both keys follow |
| StoreDelete.SetHead | store/store_delete.go:440-453 | the head and its key move down to the height |
| StoreDelete.Wipe | store/store.go:403-418 | pointers, keys and caches go while headers and index stay behind |
| StoreDelete.Decide | store/store_delete.go:242-328 | exactly which ranges are accepted, which end each one moves, and which refusal every other one gets |
| StoreDelete.DeleteRange | store/store_delete.go:238-378 | a refusal changes nothing; otherwise exactly the heights deleted are gone and the tail is where the deletion stopped; unless a parallel deletion failed, the store stays valid with one end of its run moved, and a run named by the keys stays named by them |
| StoreDelete.TailDeletionIsSafe | store/store_delete.go:333-342 | after a tail deletion, cut short or not, all heights tail..head are present, the run shrank at the tail only, and nothing outside the processed range is touched |
| StoreDelete.TailDeletionStaysMaximalExactlyWhen | store/store_delete.go:333-342 | a tail deletion within a maximal run leaves a maximal run if and only if the height below the new tail was deleted; if it was not, the next walk of the tail goes below the new tail |
| StoreDelete.HeadDeletionIsSafe | store/store_delete.go:344-361 | after a head deletion, cut short or not, all heights tail..head are present, the run shrank at the head only, and nothing outside the processed range is touched |
| StoreDelete.TriesOnlyMoveTheTail | store/store_delete.go:330-342 | any number of partial tail deletions of a flushed range removes exactly the heights from the first tail to the last one and never moves the head |
| StoreDelete.RetriesEndAlike | store/store_delete.go:330-342 | retried partial tail deletions end in the state of one uninterrupted deletion |
| StoreDelete.AllSavedSurvivesRestart | store/store.go:753-774 | while nothing is pending and the keys name the run, a crash loses nothing; DeleteRange keeps that |
| DeleteParallel.ResumeHeightIsSound | store/store_delete.go:118-234 | in every interleaving of feeder, queue and workers, every height below the returned one was deleted or counted as missing, skipped heights lie above it, and a nil error means the whole range was processed |
| DeleteParallel.CollectResults | store/store_delete.go:199-232 | the scan of the sorted results returns the lowest failed height and its error, or the end of the range |
| DeleteParallel.MissingTopIsReported | store/store_delete.go:167-217 | a range whose top height is missing never returns nil |
| DeleteParallelRuns.NilExactlyWhen | store/store_delete.go:118-234 | for fixed outcomes per height, every finished run returns nil if and only if all heights are deleted; with one worker, if and only if none fails and the top one is deleted |
| DeleteParallelRuns.NilMeansNoErrors | store/store_delete.go:199-217 | however equal heights are sorted, nil is returned exactly when no worker kept an error |
| DeleteParallelRuns.MissingHeightCanFail | store/store_delete.go:167-217 | for every missing height and two or more workers, a finished run that returns an error at or below it; if no height fails, every height above it that can be deleted is deleted in that run all the same |
| DeleteParallelRuns.HandlerNotFoundIsPassedOver | store/store_delete.go:118-234 | for every range of two heights or more and any number of workers, a run that returns the end of the range without an error although a header was not deleted |
| DeleteParallel.RunsAreBounded | store/store_delete.go:118-234 | no run has more steps than a bound that depends on the range and the number of workers only |
| DeleteParallel.NoDeadlock | store/store_delete.go:118-234 | as long as the protocol is not finished some step is possible |
| HeightSub.NoLostWakeup | store/heightsub.go:56-137 | in every interleaving a waiter at or below the height is closed or covered by a SetHeight that has still to notify it, its sub is in the map or closed, and no channel is closed twice |
| HeightSub.QuiescentWaitersReturn | store/heightsub.go:79-115 | once no SetHeight is under way, every waiter whose height was reached can return |
| HeightSub.HeightNeverFalls | store/heightsub.go:56-77 | the height is monotone over every run |
| HeightSub.SetHeightReturnsReached | store/heightsub.go:56-77 | in every interleaving, when a SetHeight returns its target is reached, and a waiter at or below it still sleeps exactly when its channel is registered, which another SetHeight under way has then to notify |
| HeightSub.SetHeightAlone | store/heightsub.go:56-77 | from every reached state with the lock free and no other SetHeight under way, SetHeight ends with the height at its target, exactly the registered heights at or below it gone and their waiters able to return, and the others asleep as before |
| HeightSub.OvertakenSetHeight | store/heightsub.go:56-77 | an interleaving in which SetHeight(5) returns while a waiter at 5 sleeps |
| HeightSub.NotifyCallAlone | store/heightsub.go:117-137 | Notify closes exactly the channels of its heights and raises no height |
| HeightSub.WaitReturnsForAReason | store/heightsub.go:79-115 | a Wait returns only when its height is reached, its channel is closed or it was cancelled |
| HeightSub.NoDeadlock | store/heightsub.go:56-137 | as long as some goroutine is not asleep on an open channel, some goroutine can go on: the lock is never left behind |
| HeightSubCancel.CancelWakesNobodyElse | store/heightsub.go:106-137 | in every run without Notify calls the count of a registered channel is the number of goroutines on it, and a cancelled wait closes nobody else's channel |
| HeightSubCancel.CancelWakesAnotherExactlyWhen | store/heightsub.go:106-137 | in every run a cancelled wait wakes somebody else exactly when the registered channel has the count one and another goroutine is blocked on it |
| HeightSubCancel.CancelCanWakeAnother | store/heightsub.go:106-137 | an interleaving in which a waiter returns without an error although its height is not reached and nothing notified it |
| Keys.KeysNeverCollide | store/keys.go:11-26 | head, tail, height and hash keys are all different for hashes longer than ten bytes |
| Keys.ShorterHashesCollide | store/keys.go:16-26 | for every shorter length some hash shares its key with a height |
| HashText.HexToUpper | hash.go:45-53 | the in-place loop turns the bytes into upper case |
| HashText.HashString | hash.go:12-18 | the buffer holds the upper-case hexadecimal text of the hash |
| HashText.MarshalJSON | hash.go:20-28 | the buffer holds the quoted upper-case hexadecimal text of the hash |
| HashText.TextIsInjective | hash.go:12-18 | different hashes have different texts |
| HashText.JsonRoundTrip | hash.go:20-43 | a hash decodes from its own JSON (hexadecimal as in section 8 of RFC 4648) |
| HashText.UnmarshalInvertsMarshal | hash.go:20-43 | data decode to a hash exactly when they are its JSON up to letter case |
| Verification.VerifyRange | verify.go:13-46 | the result is the longest prefix whose headers all pass and are adjacent, with the error of the first one that does not |
| Verification.VerdictsRise | verify.go:53-126 | a header that passes, or fails softly, is a later header of the same chain, not older and not from the future |
| Verification.VerdictIs | verify.go:53-126 | a header passes exactly when all general checks hold and its own Verify accepts it; which check fails first gives the reason of a hard failure; a refusal by its own Verify keeps its reason and is soft exactly when the headers are not adjacent or it was soft itself |
| Verification.VerifiedIsConsecutive | verify.go:13-46 | a verified range has consecutive heights above the trusted header |
| Bifurcation.SyncerMeetsContract | sync/syncer_head.go:240-288 | verification and a getter that returns the requested height meet what the search relies on |
| Bifurcation.VerifyBifurcating | sync/syncer_head.go:290-346 | the loop ends for every verdict and every getter that returns the requested height; its probes follow each other as BifurcateIsSearch says, and its heads and heights are those of the definition the other theorems are about |
| Bifurcation.BifurcateIsSearch | sync/syncer_head.go:296-345 | probe by probe: after a soft failure it looks half as far, after a candidate that passes from there; it ends with the getter's error and height, a hard failure's own error, the new head confirmed, or the last check's error right below it; it sets exactly the candidates that passed |
| Bifurcation.HardFailureEndsTheSearch | sync/syncer_head.go:316-319 | a hard failure of any fetched header is the last probe and the result, so no confirmed search met one |
| Bifurcation.HardFailureOfTheFirst | sync/syncer_head.go:316-319 | a hard failure of the first candidate ends the search with its error, one fetch and no head set |
| Bifurcation.BifurcationIsSound | sync/syncer_head.go:290-346 | nil comes only with a strictly rising chain from the subjective head to the new head whose every link passed Verify, and every head it set is linked |
| Bifurcation.FetchBound | sync/syncer_head.go:290-346 | it fetches at most gap times (floor of log2 of the gap, plus one) headers |
| Bifurcation.BifurcationIsComplete | sync/syncer_head.go:290-346 | on an honest chain, where adjacent headers verify and others fail only softly, the search succeeds and probes only heights above its trusted header |
| Bifurcation.HonestHeadIsConfirmed | sync/syncer_head.go:240-346 | whenever the direct check of an honest head fails it fails softly, and the search then confirms the head |
| Bifurcation.IncomingNetworkHead | sync/syncer_head.go:225-288 | the heads set are linked to the local one; the new head is set exactly when it passed or the search confirmed it, after a soft failure result and heads are those of the search, and a hard failure is returned as it is, but softly for the head already known |
| SyncStore.SyncStore.Append | sync/sync_store.go:58-118 | it succeeds exactly when the lock is got, the batch fits the head it finds, cached or read, and the write succeeds; the head then moves to the end of a batch that continues it or initialises the store; otherwise at most a nil head is filled in |
| SyncStore.StepMovesHead | sync/sync_store.go:41-118 | with any number of callers the cached head changes only out of nil, by publishing a batch just written that continues it by consecutive heights, or by the empty-store path, and it falls exactly when that path publishes a lower head; a failed write leaves it; publishing a batch that advances, or initialises, moves it to the end of that batch |
| SyncStore.LoneAppend | sync/sync_store.go:58-118 | an append nobody interrupts goes through the steps and leaves head, log and lock as the method Append does, for every state without a lock holder and everything the store may do |
| SyncStore.RunFallsExactlyWhen | sync/sync_store.go:41-118 | over every run and any store, the cached head falls exactly at the steps where the empty-store path publishes a head below it |
| SyncStore.HeadNeverFalls | sync/sync_store.go:41-118 | over every run of concurrent appends and lazy reads of a started store the cached head never goes down |
| SyncStore.InitialisationCanLower | sync/sync_store.go:79-87 | a run in which the empty-store path replaces a cached head by a lower one |
| Ranges.HeaderRange.RangeAmount | sync/ranges.go:166-177 | the arithmetic on the start counts exactly the headers at or below the height |
| Ranges.HeaderRange.Remove | sync/ranges.go:153-162 | exactly the headers at or below the height leave, and the start follows |
| Ranges.Ranges.Add | sync/ranges.go:38-68 | the method on shared range objects does what AddTo does to the lists, and keeps all ranges valid |
| Ranges.Ranges.Prune | sync/ranges.go:71-83 | the method on shared range objects does what PruneTo does to the lists, and keeps all ranges valid |
| Ranges.Ranges.First | sync/ranges.go:86-102 | it returns the first non-empty range and drops only empty ones |
| Ranges.AddAppends | sync/ranges.go:38-68 | a header above all others is added at the end, any other is dropped; ranges stay ascending, disjoint and not adjacent |
| Ranges.PruneDropsExactly | sync/ranges.go:71-83 | pruning drops exactly the leading headers at or below the height |
| Ranges.PruneKeepsSeparated | sync/ranges.go:71-83 | pruning keeps ranges ascending, disjoint and not adjacent |
| Ranges.CountSplits | sync/ranges.go:144-177 | Get(end) and Remove(end) split a range at exactly `end`: a header is counted exactly when its height is at or below it |
| Ranges.FlatAscends | sync/ranges.go:9-16 | together the ranges hold each height once, in ascending order |
| Ranges.HeadIsTop | sync/ranges.go:18-36 | the head of the ranges is the highest pending header |
| Syncer.Syncer.RequestHeaders | sync/syncer.go:377-416 | with any getter that keeps its contract the stored headers are consecutive from the given head; success ends exactly at the target, failure leaves a gap-free prefix; it fails only if the last answer was refused for the reason given or the last write failed, so it succeeds whenever getter and store work |
| Syncer.Syncer.Fetch | sync/syncer.go:382-403 | one request for at most 64 headers: an error comes exactly with an answer that is missing, empty or not adjacent, and names which; otherwise the answer continues the head |
| Syncer.WorkingWorldCausesNothing | sync/syncer.go:377-416 | a getter that always continues the head it is asked from and a store that always writes cause no error |
| Syncer.Syncer.ProcessHeaders | sync/syncer.go:336-372 | pending ranges and network answers merge into one gap-free chain: each height of (from, to] is appended once, in order, and only stored headers leave the pending ranges, also on failure; on success none at or below `to` is left pending; it succeeds whenever getter and store work |
| Syncer.Syncer.Sync | sync/syncer.go:263-307 | a successful sync stores exactly the headers up to the subjective head, and no sync, run alone, lowers that head; it succeeds whenever getter and store work, and otherwise fails by the last call made |
| SubjectiveHead.SubjectiveHeadNeverFalls | sync/syncer_head.go:178-221 | in every interleaving of setLocalHead calls with the sync loop in which no range batch starts below the stored head and ends above it, the subjective head never goes down; RunLowersExactlyWhen says when it does in the others |
| SubjectiveHead.RunLowersExactlyWhen | sync/syncer_head.go:178-221 | in every interleaving, a step lowers the subjective head exactly when it is the removal, by the sync loop, of the highest pending header while that header is not stored |
| SubjectiveHead.RemoveLowersExactlyWhen | sync/syncer.go:364-368 | a removal lowers the subjective head exactly when it takes the highest pending header and that one is not stored |
| SubjectiveHead.SubjectiveHeadCanFall | sync/syncer.go:336-372 | an interleaving in which the subjective head goes from 7 to 6 |
| SyncProgress.AppendToIsAppend | sync/sync_store.go:58-118 | the appends of these interleavings are refused, move the head or leave it exactly as those of SyncStore |
| SyncProgress.CallGoesOn | sync/syncer_head.go:195-221 | each setLocalHead call under way can take its next step, with the same header |
| SyncProgress.NewHeadCounts | sync/syncer_head.go:195-221 | in every interleaving, when a setLocalHead call ends the subjective head is at its header or above |
| SyncProgress.SyncGoesOn | sync/syncer.go:263-372 | in every interleaving the sync loop can take a next step |
| SyncProgress.SyncRestsForAReason | sync/syncer.go:263-372 | a sync ends only because its target was stored at its start, it finished, or a request or an append failed |
| SyncProgress.FinishedSyncHasItsTarget | sync/syncer.go:336-372 | in every interleaving in which no batch is written across the stored head, a sync that finishes has its target stored |
| Tail.EstimateIsTrusted | sync/syncer_tail.go:202-210 | the estimated tail is at most one trusting period older than the head, at least 1, does not wrap around, and is 1 or the last one within the period by block times |
| Tail.FindTailHeight | sync/syncer_tail.go:214-273 | the search stops at the first stored header inside the window from the estimate on, or at the store's height; it fails only on a header it cannot read |
| Tail.FarEstimateIsInWindow | sync/syncer_tail.go:225-229 | the far estimate does not wrap, lies above the old tail and inside the window |
| Tail.CloseTailPrunesNothingRecent | sync/syncer_tail.go:230-265 | in the close case no header inside the window is below the new tail |
| Tail.CloseTailIsFirstRecent | sync/syncer_tail.go:230-265 | if at least one block time is out of the window the new tail is the first header inside it, or lies at the height of the store or above; otherwise it stays |
| Tail.FarTailIsTheEstimate | sync/syncer_tail.go:225-265 | in the far case the new tail is the estimate itself |
| Tail.FarTailPrunesRecentExactlyWhen | sync/syncer_tail.go:225-265 | the far case prunes headers inside the window exactly when the header below the estimate is inside |
| Tail.FarTailCanPruneRecent | sync/syncer_tail.go:225-265 | a chain on which it does |
| Tail.MoveTail | sync/syncer_tail.go:124-159 | moving the tail up within the run leaves the run from exactly the new tail to the old head, or, cut short, a gap-free run from where it stopped, with nothing else removed; beyond the run it is refused, or wipes the store right above its head; moving down is left to a sync |
| Session.PrepareRequests | p2p/session.go:400-421 | the requests follow each other through the range without gap or overlap, none empty, each of the given size but for the last |
| Session.SplitsAskOnce | p2p/session.go:400-421 | such requests ask for every height of the range exactly once, and for none outside it |
| Session.Decode | p2p/session.go:424-449 | headers come out in order exactly when every response holds one; the first bad response decides the error |
| Session.ProcessResponses | p2p/session.go:359-397 | an answer is accepted exactly when it is not empty, decodes, starts at the requested height and, in a validated session, is verified as a whole, and is then consecutive; exactly when it is empty, not found or starts elsewhere it gets that error, which decides whether the peer stays |
| Session.StepConserves | p2p/session.go:101-356 | every step keeps how often each height is requested or received; only a closed session loses some |
| Session.HeightsAreConserved | p2p/session.go:101-356 | in every run of a session that validates, or asks for single headers only, received headers and outstanding requests partition the range, whatever fails, is put back or is answered in part |
| Session.SendsNeverBlock | p2p/session.go:253-345 | in every run, validated or not, request tokens never exceed the channel's capacity, so no send into it blocks |
| Session.SessionReturnsTheRange | p2p/session.go:125-166 | a completed session that validates, or asks for single headers only, returns, sorted, exactly the heights from, from+1, ..., from+amount-1 |
| Session.ReturnsTheRangeExactlyWhen | p2p/session.go:101-397 | every completed run returns the range if and only if the session validates or no request is for more than one header |
| Session.CompletionLeavesNothing | p2p/session.go:125-166 | when a session that validates, or asks for single headers only, completes, no request is unsent, queued, held or with a peer, and no answer waits to be handed over or collected, so no doRequest stays blocked |
| Session.CompletionStaysPossible | p2p/session.go:101-356 | from every reached state of an open session, validated or not, there is a continuation with honest answers that completes it, whatever failed or was answered in part before |
| Session.ClosedSessionLetsGo | p2p/session.go:169-345 | a session can be closed at any time and stays so; then every request held or with a peer can be let go |
| Session.UnvalidatedCanSkip | p2p/session.go:390-397 | for every session without a trusted header and with a request for more than one header, a completed run that returns other heights |
| SessionPeers.PeersAreInOnePlace | p2p/session.go:229-345 | every known peer is queued, in flight or awaiting its requeue, in exactly one of them and once |
| SessionPeers.SleeperIsWoken | p2p/session.go:198-226 | nextPeer never sleeps on a non-empty queue, or past a tracked peer it does not know and did not find away at its last look, without a signal due or its channel closed; a signal due wakes it |
| SessionPeers.NobodyIsStuck | p2p/session.go:198-226 | in every run nextPeer and waitPeers have a next step unless they sleep |
| SessionPeers.BeginQueuesPeers | p2p/session.go:229-239 | addPeers makes every peer given known and queues exactly those that were not, with a signal |
| SessionPeers.QueuedPeerCanBeTaken | p2p/session.go:198-226 | from every reached state nextPeer can come to take any queued peer |
| SessionPeers.UnknownPeerCanBeTaken | p2p/session.go:198-239 | from every reached state in which it sleeps on an empty queue, nextPeer can come to take a tracked peer that it does not know and did not find away |
| SessionPeers.WaiterIsWoken | p2p/peer_tracker.go:242-261 | waitPeers never sleeps on an unclosed channel while a peer is tracked |
| SessionPeers.WaiterCanReturn | p2p/peer_tracker.go:242-261 | from every reached state in which a peer is tracked, waitPeers can come to return |
| SessionPeers.PeerTracker.Connected | p2p/peer_tracker.go:168-207 | exactly which peers get tracked, and that a channel is closed and replaced exactly then |
| SessionPeers.PeerTracker.Disconnected | p2p/peer_tracker.go:209-221 | a tracked peer, and no other, becomes a disconnected one, and no channel is closed |
| SessionPeers.PeerQueue.Push | p2p/peer_stats.go:134-148 | the peer is queued and a signal waits |
| HeadQuorum.Head | p2p/exchange.go:221-270 | the answer is the header whose hash reached the quorum; without one, once all peers have answered, a highest header or not found; the soft failure is the one reported with that header |
| HeadQuorum.QuorumIsTwoThirds | p2p/exchange.go:33-41 | the quorum is all of one or two peers, and exactly the least number that is two thirds of three or more |
| HeadQuorum.QuorumIsUnique | p2p/exchange.go:36-41 | of n votes at most one hash can reach the quorum |
| HeadQuorum.QuorumWinsInEveryOrder | p2p/exchange.go:221-270 | if some hash has a quorum, every arrival order returns it |
| HeadQuorum.HighestInEveryOrder | p2p/exchange.go:221-270 | without a quorum every arrival order returns a header of the greatest height |
| Varint.EncodeVarint | p2p/pb/header_request.pb.go:329-339 | written back to front, the bytes fill exactly the space kept for them and nothing else changes |
| Varint.BytesTakeSov | p2p/pb/header_request.pb.go:392-394 | the size formula is the length of the base-128 form |
| Varint.VarintRoundTrip | p2p/pb/header_request.pb.go:329-339 | every uint64 decodes from its base-128 form in any surrounding data (Protocol Buffers Encoding guide, "Base 128 Varints") |
| Varint.EndlessVarint | p2p/pb/header_request.pb.go:403-417 | a varint that does not end is an overflow from ten bytes on and an unexpected end of data before |
| HeaderMessages.MarshalRequest | p2p/pb/header_request.pb.go:229-292 | the back-to-front writer fills its sized buffer exactly with the fields in order |
| HeaderMessages.MarshalResponse | p2p/pb/header_request.pb.go:294-327 | the back-to-front writer fills its sized buffer exactly with the fields in order |
| HeaderMessages.UnmarshalRequest | p2p/pb/header_request.pb.go:398-519 | on every byte string the parser ends within bounds and gives what the field-by-field definition gives |
| HeaderMessages.UnmarshalResponse | p2p/pb/header_request.pb.go:520-622 | on every byte string the parser ends within bounds and gives what the field-by-field definition gives |
| HeaderMessages.SkipHeaderRequest | p2p/pb/header_request.pb.go:623-700 | skipping a field of any nesting ends within bounds on every byte string |
| HeaderMessages.RequestRoundTrip | p2p/pb/header_request.pb.go:229-519 | a request decodes to itself exactly when its hash variant is not nil |
| HeaderMessages.ResponseRoundTrip | p2p/pb/header_request.pb.go:294-622 | every response decodes to itself, for all 32-bit status codes |
| HeaderMessages.AcceptedRequestRoundTrips | p2p/pb/header_request.pb.go:398-519 | whatever bytes are accepted, the request they give is valid, has no nil hash, and so survives the wire |
| HeaderMessages.AcceptedResponseRoundTrips | p2p/pb/header_request.pb.go:520-622 | whatever bytes are accepted, the response they give is valid and survives the wire |
| WireFields.RequestFieldsDecode | p2p/pb/header_request.pb.go:398-519 | every list of well-formed fields in any order decodes to what they say: the last of a kind wins, a known field of another wire type is an error, and unknown fields of every wire type, nested groups included, are skipped |
| WireFields.ResponseFieldsDecode | p2p/pb/header_request.pb.go:520-622 | the same of responses |
| WireFields.SkipsField | p2p/pb/header_request.pb.go:623-700 | skipping at a well-formed field ends right behind it, or goes on there inside a group |
| WireFields.BadTagIsRefused | p2p/pb/header_request.pb.go:419-426 | a tag that ends a group nobody opened, or has the number zero, is refused with its error |
| WireFields.BadLengthIsRefused | p2p/pb/header_request.pb.go:446-480 | a bytes field longer than the data is an invalid length or an unexpected end, as the length fits an int or not |
| WireFields.EndlessValueIsRefused | p2p/pb/header_request.pb.go:427-446 | a varint field whose value does not end is refused |

## Left out

- Streams, gossip, connection gating, metrics, tracing, logging, options and test helpers: library plumbing and I/O.
- Datastore errors, failed commits, and transactions carried in a context: a commit is atomic and succeeds. The retry loop of a failed flush is therefore not modelled.
- StoreDelete.DeleteRange: the Sync call in front of it; heights that are only pending are covered by WhatStays. After a failed parallel deletion only the heights deleted and the pointer moved are promised, since headers above the returned height may be gone.
- StoreDelete.DeleteSequential: the count of missing heights, which is only logged.
- StoreDelete.AllSavedSurvivesRestart: only with nothing pending; a tail deletion may leave the keys naming a header that is still only pending. The next commit that writes headers repairs that (Store.Store.HandleWrites); a crash before it leaves what Restart finds.
- StoreDelete.Wipe: records that a whole-store wipe leaves headers and index behind; no deletion claim covers them. store/store_recover.go is not modelled.
- Store.Store.Restart: with only one key naming a header on disk the store is left with one pointer, and the next batch sets the other one; the store methods are proved for both pointers set or neither.
- Store.Store.GetByHeight: the waiting in front of it for a height not stored yet, which HeightSub models by itself.
- HeightSub.NoLostWakeup: without heightSub.Init, which wakes strictly lower heights only and may lower the height; waiting for heights stored above a gap is not claimed.
- Session.SessionReturnsTheRange: nothing about an amount of zero, for which no answer arrives and the session waits for its context to end.
- Panics inside a header's own methods, which session.processResponses recovers from, count as rejected answers.
- SessionPeers.SleeperIsWoken: a tracked peer that was away at the last look and connects again wakes nobody until the tracker closes its channel or a signal comes, which is what the code does. Peer scores and the heap order, which change while peers wait; pop takes any queued peer. Garbage collection of disconnected peers, blocking and dumping of peers are left out.
- SubjectiveHead.SubjectiveHeadNeverFalls: each method of the ranges is one step; interleavings inside one Add with a removal from the same range are not modelled.
- Syncer.Syncer.ProcessHeaders: proved for the sync loop running alone and forwards from the stored head; syncing down to a lower tail writes below the stored head and moves no head.
- Tail.MoveTail: the downward move only up to the decision to sync.
- renewTail, tailHash and the choice between configured hash and height: they select among calls modelled elsewhere.
- Head, networkHead, subjectiveHead, isExpired and isRecent of the syncer: time comparisons in front of the modelled head phases.
- A block time of zero, with which the estimates of sync/syncer_tail.go divide by zero.

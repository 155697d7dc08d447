# Verified model of Kebeng

Kebeng is a snap store backend. This project models the parts of it where something
can go wrong between two steps, and proves what they keep. `dafny verify
dfyconfig.toml` checks everything.

| files | what they model |
|---|---|
| `PerformOperation`, `PeakInFlight`, `OperationReports`, `FileRecorder`, `Benchmark`, `Sums` | the concurrent benchmark runner, the bounded-queue recorder, and the handlers that put them together, as step relations over all interleavings |
| `RevisionModel`, `RevisionInvariants`, `RevisionHistory`, `RevisionResults`, `Leftovers`, `Registration`, `Answers`, `RevisionStore` | the revision store: tables, buckets and RPCs, with any repository or object-store call failing before or after it took effect; first as functions with their invariants and theorems over whole histories, then as methods on mutable state tied to those functions |
| `Channels`, `ObjectPaths` | channel strings, object and delta paths, the delta route, snap names |
| `Transfer`, `EndToEnd` | chunked upload and download, and the way of one snap through everything |
| `AssertionService`, `ErrorLists` | revision numbers of assertions, and the error list |
| `TrustChain` | the climb from key to account to key |
| `CohortKeys`, `Base64`, `Text`, `Milestone` | cohort keys and the 90-day milestone |
| `Macaroon` | permission caveats: writing, validating, checking |
| `AccountView` | the join behind the account page |

## How to read the model

- Concurrency is a state machine: a label is one atomic action of one goroutine, and a
  theorem speaks of every reachable state or every run.
- In the store, `Env` says for each external call of one RPC whether it works, is
  refused, or takes effect and is still reported as failed; it also fixes the order in
  which Go walks the map of tracks and which of several equally good rows a query
  returns. Theorems hold for all of them. Each RPC is one atomic step.
- A table is a sequence and a row's key is its position. Queries do what their SQL in
  `services/store/internal/repository/snaps.go` says; a bucket is a finite map. The
  migrations put no uniqueness on revision rows, tracks or channels, and neither does
  the model.
- Three things are parameters with a stated law: the delta codec
  (`patch(s, gen(s, t)) == t`), the HMAC of cohort keys (20 bytes), and time texts,
  which use the characters of RFC 3339 (section 5.6), or a comma for the point. Snap ids in macaroons are uuids:
  letters, digits and hyphens.
- `RevisionHistory.Good` is a history of RPCs from the empty store in which no entry has
  used the last uint32 number; every history of fewer than 2^32 - 1 RPCs is one.
- In the assertion service a failing lookup never has the code resource-not-found: only
  the driver's no-documents error is converted to it.

## Where the code does not do what one would expect

Each of these is proved of the code as it is, with the exact condition.

- The reported maximum is the largest semaphore length that was *read*; the real peak
  can be higher as soon as two operations may overlap
  (`PeakInFlight.PeakIsReportedExactly`).
- An upload whose inputs are all malformed succeeds without a revision row, and the next
  upload overwrites its object (`RevisionResults.LeavesRevisionExactly`,
  `RevisionResults.UnrecordedIsOverwritten`).
- The branch of `processUnscannedSnap` that adds a missing track is never reached, since
  the repository reports a missing track as an error (`RevisionResults.NilIsNeverRead`);
  only `latest` can be uploaded to (`RevisionResults.OnlyLatestSucceeds`).
- An upload whose first row is written keeps the digest taken, so a retry is refused
  (`Leftovers.RetryBlockedExactly`); with known and unknown tracks mixed it depends on
  the map order what is left (`Leftovers.LeftoversAgreeExactly`); its rows may have no
  object (`Leftovers.DownloadsExactly`); and that breaks the delta chain
  (`RevisionResults.DeltaRecordedExactly`).
- A registration that took the name but not its track leaves a name nobody can use
  (`Registration.LeavesTrackExactly`, `Registration.NameWithoutTrackIsLost`).
- The upload client takes an empty read for the end
  (`Transfer.UploadedExactly`, `Transfer.EmptyReadTruncates`).
- A bare track name means different things to upload and refresh
  (`Channels.PushAndRefreshAgree`).
- The milestone is not the current window's for a key from the future
  (`Milestone.WindowExactly`).
- A location or discharge key that holds the acl marker makes every permission check
  fail (`Macaroon.ChecksExactly`).
- uint32 revision numbers wrap to zero (`Leftovers.NumberingSurvivesExactly`,
  `AssertionService.AddKeepsNumbering`).

## Model

| member | source | states |
|---|---|---|
| `PerformOperation.SemaphoreSafety` | services/monitoring/handler/handler.go:644-664 | in every interleaving the semaphore's length is the number of goroutines between send and receive, and neither it nor the recorded maximum exceeds the limit |
| `PerformOperation.OutcomeWhenFinished` | services/monitoring/handler/handler.go:632-700 | when `Wait` has returned: succeeded + failed = total, every operation ran exactly once, an error is reported exactly when something failed and comes from an operation that failed |
| `OperationReports.ResponseIsRight` | services/monitoring/handler/handler.go:662-700 | read off the actions of the run: succeeded is the number of operations that returned without an error, failed the number that returned one, and the error reported is that of the failed operation that stored its own last |
| `PerformOperation.MaximumIsExact` | services/monitoring/handler/handler.go:652-660 | at the end the lock-free maximum is the largest length any goroutine read, every reading is in 1..limit, and one of them attains it |
| `OperationReports.ReadingIsOccupancy` | services/monitoring/handler/handler.go:651-653 | what a goroutine compares with the maximum is the number of slots held at the moment it read the length, and stays so |
| `OperationReports.SlotsCanAllBeTaken` | services/monitoring/handler/handler.go:644-651 | the bound on the semaphore is attained: as many operations can be in it at once as there are slots or operations |
| `PerformOperation.RetryOnlyAfterRaise` | services/monitoring/handler/handler.go:654-660 | a compare-and-swap fails exactly when another goroutine raised the maximum since the load, and succeeds exactly when it raises the maximum itself |
| `PeakInFlight.PeakIsReportedExactly` | services/monitoring/handler/handler.go:651-660 | the reported maximum is the largest occupancy there ever was, in every finished run, if and only if there is at most one slot or at most one operation |
| `PeakInFlight.PeakCanBeMissed` | services/monitoring/handler/handler.go:651-660 | for every other limit and total a finished run where two operations held slots at once and the maximum is one: the length is read after the send |
| `PeakInFlight.PeakAtMostTotal` | services/monitoring/handler/handler.go:651-663 | the peak is never above the number of operations |
| `PerformOperation.StepInv` | services/monitoring/handler/handler.go:632-700 | every atomic action keeps the inductive invariant relating counters, WaitGroup, semaphore and each goroutine's position |
| `PerformOperation.ReachableInv` | services/monitoring/handler/handler.go:632-700 | the invariant in every reachable state, for every total and limit, zero included |
| `PerformOperation.StepDecreases` | services/monitoring/handler/handler.go:644-675 | every atomic action lowers a measure in which one raise of the maximum outweighs all the loads it makes stale |
| `PerformOperation.RunsAreBounded` | services/monitoring/handler/handler.go:632-700 | no schedule is infinite: at most 2*limit*total + 12*total + 2 atomic actions |
| `PerformOperation.Progress` | services/monitoring/handler/handler.go:632-700 | with a slot to take, some action is enabled until `Wait` has returned |
| `PerformOperation.NoSlotsNoProgress` | services/monitoring/handler/handler.go:644-651 | with concurrency zero nobody ever passes the semaphore and `Wait` never returns |
| `PerformOperation.StuckOnlyWhenFinished` | services/monitoring/handler/handler.go:632-700 | every stuck state is the finished one if and only if the limit is at least one or there is nothing to run |
| `PerformOperation.LongestRun` | services/monitoring/handler/handler.go:632-700 | every partial run extends to a maximal one |
| `FileRecorder.StepInv` | common/monitoring/custom_metrics.go:55-105 | every step of producers, writer, ticker and shutdown keeps: WaitGroup = producers past Add + queued + in hand; file ++ buffer ++ hand ++ queue is the acceptance order; every event is undecided, accepted, dropped or ignored exactly once; nothing is queued once the channel is closed |
| `FileRecorder.AcceptedIsKept` | common/monitoring/custom_metrics.go:55-105 | in every run, joined or not, accepted events are neither lost, duplicated nor reordered, and the queue is empty when the channel closes |
| `FileRecorder.JoinedShutdown` | common/monitoring/custom_metrics.go:80-115 | when shutdown is called after the producers are done, the file ends up as the accepted events in order and written + dropped = recorded as multisets |
| `FileRecorder.NothingDroppedWhenRoomy` | common/monitoring/custom_metrics.go:89-95 | with a queue slot for every event nothing is dropped |
| `FileRecorder.NoPanicExactlyWhenJoined` | common/monitoring/custom_metrics.go:88-105 | no send can hit the closed channel if and only if shutdown waits for the producers or there is nothing to record |
| `FileRecorder.PanicWhenNotJoined` | common/monitoring/custom_metrics.go:80-105 | otherwise a producer that looked the recorder up in time can still send on the closed channel |
| `FileRecorder.OfferFindsRoom` | common/monitoring/custom_metrics.go:89-91 | an offer finds the queue full only if there are more events than slots |
| `FileRecorder.WorkIsBounded` | common/monitoring/custom_metrics.go:55-105 | ticker flushes apart, a run has at most seven actions for each event, plus five |
| `FileRecorder.Progress` | common/monitoring/custom_metrics.go:55-105 | until shutdown has returned somebody other than the ticker can move |
| `FileRecorder.ProducerProgress` | common/monitoring/custom_metrics.go:80-96 | a producer with an event to record is never blocked by the recorder |
| `Benchmark.RecorderStep` | services/monitoring/handler/handler.go:50-67 | a step of the composed handler is a step of the recorder whose shutdown waits, or leaves the recorder alone |
| `Benchmark.RunProjects` | services/monitoring/handler/handler.go:50-67 | every run of the composed handler projects to a run of the runner and a run of the recorder |
| `Benchmark.NeverPanics` | services/monitoring/handler/handler.go:59-66 | in the handlers' pattern no send hits a closed channel and the channel closes only after every operation is over |
| `Benchmark.HandlerReturns` | services/monitoring/handler/handler.go:50-67 | when the handler returns, the actions of the runner in it are a run; succeeded and failed are the numbers of operations that returned without and with an error in it, the error is the last one stored, and the file holds exactly the accepted events with written + dropped = recorded |
| `Benchmark.Progress` | services/monitoring/handler/handler.go:50-67 | the composed handler cannot deadlock when the limit is at least one |
| `Benchmark.WorkIsBounded` | services/monitoring/handler/handler.go:50-67 | no schedule of a whole benchmark is infinite, ticker flushes apart |
| `RevisionHistory.StepKeeps` | services/store/internal/logic/logic.go:941-1179 | each RPC, with any of its calls refused or performed but reported failed, keeps the invariant (numbers dense and one-to-one with digests, rows and paths consistent, every delta right) and touches no object of an existing row |
| `RevisionHistory.HistoryKeeps` | services/store/internal/logic/logic.go:1503-1605 | the invariant after any history of RPCs in which no entry met the last uint32 number |
| `RevisionHistory.NumbersAndDigestsMatch` | services/store/internal/logic/logic.go:1514-1581 | after any history an entry's sequence numbers are exactly 1..n, and two of its rows share a number if and only if they share a digest |
| `RevisionHistory.FrozenForever` | services/store/internal/logic/logic.go:1426-1444 | once a row exists the object at its path is the same for the rest of every history, whatever is uploaded to any entry |
| `RevisionHistory.ShortHistoriesAreGood` | services/store/internal/logic/logic.go:1538-1541 | a history of fewer than 2^32 - 1 RPCs never meets the end of the uint32 numbers |
| `RevisionHistory.GrownKeeps` | services/store/internal/logic/logic.go:43-94 | registration keeps every revision fact |
| `RevisionInvariants.ProcessNewEffect` | services/store/internal/logic/logic.go:1538-1605 | the whole effect of an upload past its checks, whichever call fails: rows of one fresh number only, older objects untouched, every delta still right |
| `RevisionInvariants.WriteRowsExtends` | services/store/internal/logic/logic.go:1548-1581 | without a failure the row loop leaves one row for each pair in order; a failure leaves a part, all of one revision |
| `RevisionInvariants.NextIsFresh` | services/store/internal/logic/logic.go:1533-1541 | latest + 1 is above every number of the entry with none missing below, while uint32 has room |
| `RevisionInvariants.FreshPath` | services/store/internal/logic/logic.go:1442-1444 | the path of a fresh number belongs to no row of any entry |
| `RevisionInvariants.FreshDeltaPath` | services/store/internal/logic/logic.go:1411-1416 | the delta path of a fresh number belongs to no recorded delta |
| `RevisionInvariants.StoreDeltaKeeps` | services/store/internal/logic/logic.go:1337-1424 | the stored delta joins sequence s to s + 1 and patches the source object into the target object; the other deltas are untouched |
| `RevisionInvariants.StaysFrozen` | services/store/internal/objectstore/objectstore.go:79-104 | moving the object changes no object that a row names |
| `RevisionResults.StoredExactly` | services/store/internal/logic/logic.go:1543-1605 | success means one row for each well-formed input whatever the map order, all with number n + 1 and the given digest, and the uploaded bytes under that number |
| `RevisionResults.LeavesRevisionExactly` | services/store/internal/logic/logic.go:1546-1605 | a success leaves a revision if and only if some input is well formed |
| `RevisionResults.UnrecordedIsOverwritten` | services/store/internal/logic/logic.go:1538-1588 | when none is, the number is not used up and the next success overwrites the object |
| `RevisionResults.ThreePartsParseToNothing` | services/store/internal/logic/logic.go:1482-1494 | such an input: `a/b/c` |
| `RevisionResults.OnlyLatestSucceeds` | services/store/internal/logic/logic.go:1550-1564 | every track of a successful upload is `latest`, which registration adds |
| `RevisionResults.NilIsNeverRead` | services/store/internal/logic/logic.go:1554-1563 | no RPC reaches the read of the nil that the branch for a missing track would leave: the lookup answers a missing track with an error |
| `RevisionResults.OutcomeWithoutFailures` | services/store/internal/logic/logic.go:1503-1605 | with every call working a new digest is stored if and only if the tracks asked for and the bytes are there; otherwise which error |
| `Answers.AddRevisionAnswers` | services/store/internal/logic/logic.go:941-971 | what the RPC answers for every request and every fate of its calls: which check or call stops it, an unknown track told from a database error, or the next number |
| `Answers.AddRevisionAnswersWithoutFailures` | services/store/internal/logic/logic.go:941-971 | with every call working: missing field, unknown name, digest already there, unknown tracks, bytes not staged, or the next number |
| `Leftovers.NewRowsExactly` | services/store/internal/logic/logic.go:1548-1579 | an upload leaves a row if and only if every call for its first pair gets through, up to and with the insert: track looked up and there, channel there or added, insert in effect |
| `Leftovers.DigestTakenExactly` | services/store/internal/logic/logic.go:1519-1531 | a digest counts as taken afterwards if and only if that first row is written, whether or not the upload succeeds |
| `Leftovers.RetryBlockedExactly` | services/store/internal/logic/logic.go:1519-1531 | the same upload again is answered already-registered if and only if that first row is written |
| `Leftovers.LeftoversAgreeExactly` | services/store/internal/logic/logic.go:1548-1581 | with every call working all map orders leave the same number of rows, and the same digest taken or free, if and only if the tracks asked for are all there or none of them is |
| `Leftovers.FirstTrackDecides` | services/store/internal/logic/logic.go:1548-1564 | with every call working the first track of the walk decides whether anything is left |
| `Leftovers.LeftoversDependOnMapOrder` | services/store/internal/logic/logic.go:1548-1581 | an instance: `latest` beside a track that is not there fails in both orders and leaves the digest taken in one |
| `Leftovers.GoesOnExactly` | services/store/internal/logic/logic.go:1548-1581 | all rows are written if and only if the calls of each get through, where a channel may come from an earlier row |
| `Leftovers.DownloadsExactly` | services/store/internal/logic/logic.go:1546-1588 | a row of an upload downloads as the uploaded bytes if and only if all rows were written and the staged object was copied; otherwise it has no object, or the one an unrecorded success left under that number |
| `Leftovers.NumberingSurvivesExactly` | services/store/internal/logic/logic.go:1538-1541 | the numbering survives an upload if and only if the entry has a uint32 number left or the first row is not written |
| `RevisionResults.SomeEnv` | services/store/internal/logic/logic.go:1548 | there is always a map order and a latest row for an upload to meet |
| `RevisionResults.UploadIsKept` | services/store/internal/logic/logic.go:496-588 | the bytes moved by a successful upload are what a download of any of its rows returns, for the rest of every history |
| `RevisionResults.HeldRevisionStays` | services/store/internal/logic/logic.go:1426-1444 | digest and bytes of a stored revision survive any step |
| `RevisionResults.DeltaUploadStoresPatch` | services/store/internal/logic/logic.go:973-1179 | a successful upload by delta, made by whatever tool, stores exactly the base the request names patched with the delta whose digest was checked, under the digest of that result |
| `Answers.DeltaAcceptedExactly` | services/store/internal/logic/logic.go:973-1179 | whatever fails, an upload by delta is stored if and only if the request names a format, an entry and a base that are there, the delta is staged under its digest, the base object is there, every call works and the rebuilt snap would itself be accepted |
| `Answers.DeltaAnswersWithoutFailures` | services/store/internal/logic/logic.go:973-1179 | with every call working, which of nine refusals is answered, in the order of the checks, or the next number |
| `Answers.RebuildsExactly` | services/store/internal/logic/logic.go:985-1150 | the rebuilding part goes through exactly when request and state allow it and its calls work |
| `Answers.RefusedExactly` | services/store/internal/logic/logic.go:985-1150 | and when it does not, which error for every fate of the calls |
| `Answers.DeltaDroppedExactly` | services/store/internal/logic/logic.go:1008-1150 | the staged delta is dropped exactly when its digest is wrong, it cannot be applied, or the snap was rebuilt; otherwise it stays for another try |
| `RevisionResults.DeltaUploadStoresTarget` | services/store/internal/logic/logic.go:973-1179 | corollary by the codec law: when the delta is the one the store itself would make from the base for t, it stores t |
| `RevisionResults.DeltaUploadIsKept` | services/store/internal/logic/logic.go:973-1179 | the patched snap stays what a download returns for the rest of every history |
| `RevisionResults.UploadIsConsumed` | services/store/internal/logic/logic.go:1523-1588 | an upload touches no other file of the `unscanned` bucket, and its own is gone after a success and after a duplicate was turned away |
| `RevisionResults.DeltaUploadIsConsumed` | services/store/internal/logic/logic.go:1008-1179 | an upload by delta touches its two files only; the result is gone after a success, and so is the delta unless its removal failed |
| `RevisionResults.ChainRebuilds` | services/store/internal/logic/logic.go:1337-1424 | patching the bytes of s through consecutive stored deltas up to t gives the bytes of t |
| `RevisionResults.ChainsAlwaysRebuild` | services/store/internal/logic/logic.go:1337-1424 | the same after any history |
| `RevisionResults.DeltaRecordedExactly` | services/store/internal/logic/logic.go:1590-1602 | with every call working the delta from the former latest is recorded if and only if that one's object is there |
| `Registration.RegisteredExactly` | services/store/internal/logic/logic.go:43-94 | a real registration succeeds only for a free name and adds the entry, its `latest` track and that track's channels stable, candidate, beta and edge, nothing else |
| `Answers.RegisterAnswers` | services/store/internal/logic/logic.go:43-94 | which answer for every fate of the calls, dry run included |
| `Registration.DryRunForetells` | services/store/internal/logic/logic.go:46-59 | a dry run changes nothing and its answer foretells a registration that follows: it succeeds if and only if the name was answered to be free |
| `Registration.NameIsTakenExactly` | services/store/internal/logic/logic.go:43-94 | a name is taken if and only if the attempt reached the entry table, even when it failed later; every later attempt is then refused |
| `Registration.TracksAreFixed` | services/store/internal/logic/logic.go:79-91 | no later RPC gives an entry a track or takes one away |
| `Registration.NoTrackNoRevision` | services/store/internal/logic/logic.go:1550-1564 | an upload to an entry without a track writes no row |
| `Registration.LeavesTrackExactly` | services/store/internal/logic/logic.go:73-91 | registering a free name leaves its entry with a track if and only if the calls up to the track got through, the last of them reported or not |
| `Registration.FirstUploadExactly` | services/store/internal/logic/logic.go:73-91 | and exactly then a first upload is stored, as number one; otherwise it finds no entry or no track |
| `Registration.StaysUnusable` | services/store/internal/logic/logic.go:1550-1564 | an entry without a track never gets a row in the rest of any history |
| `Registration.NameWithoutTrackIsLost` | services/store/internal/logic/logic.go:66-84 | a registration that took the name but not its track leaves, from that event on and for every later history, a name that is taken and has no revision |
| `RevisionStore.Store.RegisterSnapName` | services/store/internal/logic/logic.go:43-94 | the method on mutable tables computes exactly the specified new state and answer |
| `RevisionStore.Store.AddDefaultChannels` | services/store/internal/repository/snaps.go:93-104 | the loop adds the four channels in order and stops at the first failure |
| `RevisionStore.Store.GetTrackByEntryIdAndName` | services/store/internal/repository/snaps.go:715-731 | track and error as the specified lookup gives them |
| `RevisionStore.Store.CreateMissingTrack` | services/store/internal/logic/logic.go:1554-1563 | the branch for a track missing without an error, as specified |
| `RevisionStore.Store.WriteChannelRow` | services/store/internal/logic/logic.go:1550-1579 | one turn of the inner loop: track and channel looked up, channel added if missing, row added |
| `RevisionStore.Store.WriteTrackRows` | services/store/internal/logic/logic.go:1549-1580 | the inner loop writes the pairs of one track in order |
| `RevisionStore.Store.WriteChannelRows` | services/store/internal/logic/logic.go:1546-1581 | the two nested loops over the parsed map write the pairs of that map order, up to the first failure |
| `RevisionStore.Store.Move` | services/store/internal/objectstore/objectstore.go:79-104 | copy, then remove; either may fail, with or without effect |
| `RevisionStore.Store.GenerateAndStoreDelta` | services/store/internal/logic/logic.go:1337-1424 | an existing delta is left alone; otherwise object first, record second |
| `RevisionStore.Store.ProcessUnscannedSnap` | services/store/internal/logic/logic.go:1503-1605 | the method computes exactly the specified new state and answer, for every pattern of failures |
| `RevisionStore.Store.AddNewRevision` | services/store/internal/logic/logic.go:1533-1605 | number, rows, object and delta in that order |
| `RevisionStore.Store.AddRevision` | services/store/internal/logic/logic.go:941-971 | the same for the whole RPC |
| `RevisionStore.Store.ApplyUploadDelta` | services/store/internal/logic/logic.go:973-1179 | the same for an upload by delta |
| `RevisionStore.PairsOfTrack` | services/store/internal/logic/logic.go:1548-1581 | walking the map track by track and channel by channel meets the pairs in the specified order |
| `EndToEnd.DownloadIsUpload` | services/store/internal/logic/logic.go:496-588 | from the publisher's reader to the HTTP client the bytes arrive unchanged and the row carries their digest, for every splitting on either side and every history in which no RPC between staging and recording names the file |
| `EndToEnd.StagedStays` | services/store/internal/logic/logic.go:742-823 | a staged file stays as it is until an RPC names it |
| `Channels.ParseTracksAndChannels` | services/store/internal/logic/logic.go:1471-1501 | an order-preserving group-by: each track has the well-formed inputs for it, in input order, and no other key exists |
| `Channels.PushOfParts` | services/store/internal/logic/logic.go:1471-1501 | what one input asks for, by its slash-separated parts: one is a channel of `latest`, two a track and its channel, more nothing |
| `Channels.WantedInOrder` | services/store/internal/logic/logic.go:1476-1499 | inputs are taken one after the other, none minding the others |
| `Channels.ChannelsInOrder` | services/store/internal/logic/logic.go:1476-1499 | so each track's channels are in input order |
| `Channels.NoInputs` | services/store/internal/logic/logic.go:1473-1475 | no input at all asks for latest/stable |
| `Channels.RowsDoNotDependOnMapOrder` | services/store/internal/logic/logic.go:1548-1581 | the multiset of (track, channel) pairs to write is the same for every map order: one for each well-formed input |
| `Channels.SomeOrder` | services/store/internal/logic/logic.go:1548 | the map can be walked |
| `Channels.OrderStarting` | services/store/internal/logic/logic.go:1548 | the map can be walked from any track an input names |
| `Channels.PushAndRefreshAgree` | services/gateway/handler/snap/handler.go:1169-1213 | upload and refresh read a channel string as the same track and channel if and only if it is a bare risk or two non-empty parts |
| `Channels.RefreshOfParts` | services/gateway/handler/snap/handler.go:1169-1213 | what a refresh reads, by parts: a risk of `latest`, a track, a track and a channel, a branch left out, nothing for four parts, defaults for empty ones |
| `Channels.BareTrackDisagrees` | services/gateway/handler/snap/handler.go:1169-1213 | `2.0` is uploaded to latest/2.0 and refreshed from 2.0/stable |
| `Channels.WrittenOutAgrees` | services/store/client/client.go:235-242 | for track/risk with non-empty slash-free parts both sides, client defaults included, mean just that |
| `ObjectPaths.SnapPathInjective` | services/store/internal/logic/logic.go:1442-1444 | two revisions never share an object path, whatever characters the names hold |
| `ObjectPaths.DeltaPathInjective` | services/store/internal/logic/logic.go:1411-1411 | two deltas never share a path if the format has no slash |
| `ObjectPaths.OneStepBehindExactly` | services/gateway/handler/snap/handler.go:303-307 | the uint32 difference test admits exactly target = source + 1 modulo 2^32 |
| `ObjectPaths.OfferLeadsToStoredDelta` | services/gateway/handler/snap/handler.go:328-336 | the offered URL, split by its route and rebuilt for the download, is the stored path if and only if the name is one non-empty segment |
| `ObjectPaths.ValidNamesRoute` | services/store/internal/logic/logic.go:615-616 | so it is for every name that can be registered |
| `ObjectPaths.ValidNameExactly` | services/store/client/client.go:613-631 | the valid characters and letters, one by one |
| `ObjectPaths.CheckValidName` | services/store/client/client.go:613-631 | accepted exactly when only lower-case letters, digits and hyphens occur, with at least one letter |
| `Transfer.UnscannedUpload` | services/store/client/client.go:333-405 | one initial message, then each non-empty read as a chunk through the reused buffer, up to the first empty read or error; success exactly when it stopped without an error and everything could be sent |
| `Transfer.TakenExactly` | services/store/client/client.go:357-392 | the chunks are the data of the reads in front of the first one that is empty or broken, and the upload completes if and only if there is no such read or it is not broken |
| `Transfer.TakenChunksFit` | services/store/client/client.go:357-392 | no chunk is empty, and none is larger than the buffer for a reader that keeps to it |
| `Transfer.CompletesExactly` | services/store/client/client.go:357-370 | for a reader without empty reads before its end the upload completes if and only if no read fails |
| `Transfer.UploadIsIdentity` | services/store/client/client.go:357-392 | for a reader without empty reads before its end the chunks are the source, however it splits and whether or not the last bytes come with the end |
| `Transfer.ContentIsAllData` | services/store/client/client.go:357-392 | where the content of a source is the data of all its reads, in order |
| `Transfer.UploadedExactly` | services/store/client/client.go:357-392 | in general the file is the source if and only if nothing followed the first empty read |
| `Transfer.EmptyReadTruncates` | services/store/client/client.go:371-374 | a reader within the io.Reader contract whose snap is cut short without an error |
| `Transfer.ReceiveUpload` | services/store/internal/logic/logic.go:742-823 | the server's file is the concatenation of the chunks and its digest the hash of the whole; any other message, or a stream that was not closed, gives no file |
| `Transfer.ReceivedExactly` | services/store/internal/logic/logic.go:742-823 | a file comes of exactly one initial message, then chunks, then the close; its name, bytes and digest |
| `Transfer.SnapDownload` | services/store/internal/logic/logic.go:543-588 | one initial message, then every non-empty read, the one that comes with the end included; empty reads are skipped |
| `Transfer.ServedChunksFit` | services/store/internal/logic/logic.go:543-573 | every chunk has 1 to 64 Ki bytes |
| `Transfer.ServedIsContent` | services/store/internal/logic/logic.go:566-588 | the chunks are the object |
| `Transfer.Relay` | services/gateway/handler/snap/handler.go:1057-1085 | payloads are written in order until a write fails |
| `Transfer.RelayedBytes` | services/gateway/handler/snap/handler.go:1057-1085 | the HTTP body is always a front part of the object, and all of it when every message and write went through |
| `AssertionService.HistoryIsGood` | services/assertion/internal/logic/logic.go:110-460 | after any requests (fewer than 2^32 - 1) with any failures every subject's stored revisions are 1..n in insertion order, and the signed header carries the stored number |
| `AssertionService.NothingIsLost` | services/assertion/internal/repository/assertion.go:68-234 | collections only grow at the end |
| `AssertionService.AddKeepsNumbering` | services/assertion/internal/logic/logic.go:121-135 | an add changes no other subject; it stores nothing exactly when lookup, decoding or signing fails or the insert is rejected; it keeps the numbering if and only if so or uint32 has a number left |
| `AssertionService.AddAnswers` | services/assertion/internal/logic/logic.go:110-220 | the error list is empty exactly on success, first adds included; success appends exactly one document numbered n + 1; a refused insert changes nothing |
| `AssertionService.AccountKeyAnswers` | services/assertion/internal/logic/logic.go:110-220 | an account key touches the keys only, numbered among those of its account; each failure gives its own error, an id that does not parse included |
| `AssertionService.SnapDeclarationAnswers` | services/assertion/internal/logic/logic.go:222-314 | a declaration touches the declarations only, numbered by its snap; the publisher must parse too |
| `AssertionService.AccountAnswers` | services/assertion/internal/logic/logic.go:390-460 | an account assertion touches the accounts only, numbered by the account and not by its keys |
| `AssertionService.AnswersWithoutFailures` | services/assertion/internal/logic/logic.go:110-460 | when nothing fails each request adds the one document with the next uint32 number of its subject, signed under that number, and answers it |
| `AssertionService.Service.RevisionNumber` | services/assertion/internal/logic/logic.go:121-135 | one for a first add with the not-found error taken back, latest + 1 otherwise, none with the error kept when the lookup failed |
| `AssertionService.Service.AddAccountKeyAssertion` | services/assertion/internal/logic/logic.go:110-220 | new collections and answer exactly as specified |
| `AssertionService.Service.AddSnapDeclarationAssertion` | services/assertion/internal/logic/logic.go:222-314 | new collections and answer exactly as specified |
| `AssertionService.Service.AddAccountAssertion` | services/assertion/internal/logic/logic.go:390-460 | new collections and answer exactly as specified |
| `AssertionService.Repository.FindLatest` | services/assertion/internal/repository/assertion.go:216-234 | highest revision of the subject, or a not-found error that is also added to the list |
| `ErrorLists.ErrorList.RemoveErrorWithCode` | common/cerror/cerror.go:219-226 | deleting in place while indexing downwards leaves the filtered list |
| `ErrorLists.WithoutIsFilter` | common/cerror/cerror.go:219-226 | the filtered list is the elements at exactly the positions without the code, in increasing order |
| `ErrorLists.ConvertCommutes` | common/cerror/cerror.go:170-179 | removing and converting commute |
| `ErrorLists.RoundTrip` | common/cerror/cerror.go:164-179 | converting and extending an empty list is the identity |
| `ErrorLists.ErrorList.ConvertToProtoErrorList` | common/cerror/cerror.go:170-179 | the pointwise conversion |
| `ErrorLists.ErrorList.ExtendProtoError` | common/cerror/cerror.go:164-168 | appends the converted errors in order |
| `TrustChain.Climb` | services/monitoring/handler/handler.go:224-265 | always returns; trusted if and only if an account with the trusted display name and validation is on the chain; otherwise a failed fetch or a cycle depending on whether the chain ends; the keys asked are linked account by account, none twice, and none but the last leads to a trusted account |
| `TrustChain.CycleMeansNeither` | services/monitoring/handler/handler.go:231-236 | once a key repeats, no key further up is trusted or missing |
| `TrustChain.DeadEndMeansUntrusted` | services/monitoring/handler/handler.go:238-254 | a chain that ends in a failed fetch has no trusted account anywhere on it |
| `CohortKeys.RoundTrip` | services/gateway/handler/snap/handler.go:1228-1265 | print then parse gives the key with its time cut to seconds if neither id nor signature holds a space, and fails on the number of parts otherwise |
| `CohortKeys.ParsesText` | services/gateway/handler/snap/handler.go:1238-1265 | every text `version id seconds signature`: what key it is read as, or which part is refused, for any numbers |
| `CohortKeys.PrintsText` | services/gateway/handler/snap/handler.go:1228-1236 | a key is printed as the base64 of that text |
| `CohortKeys.SignedKeyVerifies` | services/gateway/handler/snap/handler.go:1267-1294 | a key signed, printed and parsed verifies and names its snap if and only if the id has no space |
| `CohortKeys.VerifyExactly` | services/gateway/handler/snap/handler.go:1285-1294 | a signature is accepted exactly when it spells the digest of version and id |
| `CohortKeys.HexInjective` | services/gateway/handler/snap/handler.go:1281-1282 | the spelled digest determines the digest |
| `CohortKeys.HexAt` | services/gateway/handler/snap/handler.go:1281-1282 | each byte is spelled by its high and then its low digit |
| `Base64.DecodeEncode` | services/gateway/handler/snap/handler.go:1228-1236 | standard base64 decodes what it encoded, for all bytes |
| `Base64.SameNumber` | services/gateway/handler/snap/handler.go:1228-1236 | three bytes and their four digits are the same number, high digit first |
| `Base64.Padded` | services/gateway/handler/snap/handler.go:1228-1236 | shorter groups are those filled up with zeros, with padding for the digits that say nothing |
| `Base64.InAlphabet` | services/gateway/handler/snap/handler.go:1228-1236 | the digits are those of the standard alphabet |
| `Text.ParseInt64PrintInt` | services/gateway/handler/snap/handler.go:1256-1260 | a printed int64 parses back, and nothing outside int64 does |
| `Text.ParseUintPrintNat` | services/gateway/handler/snap/handler.go:1248-1252 | a printed number parses back exactly when it fits the width |
| `Text.NumeralDigits` | services/gateway/handler/snap/handler.go:1228-1236 | a numeral is its decimal digits from the highest on, without a leading zero |
| `Text.SplitJoin` | services/gateway/handler/snap/handler.go:1243-1246 | splitting what was joined gives the parts exactly when none holds the separator |
| `Milestone.WindowExactly` | services/gateway/handler/snap/handler.go:1296-1302 | the milestone starts the window now is in if and only if the key is not from the future (whole windows apart) and less than 1187 windows old |
| `Milestone.WindowsTurnOver` | services/gateway/handler/snap/handler.go:1296-1302 | windows turn over every ninety days from the origin on, to the nanosecond |
| `Milestone.FutureKeyMissesWindow` | services/gateway/handler/snap/handler.go:1296-1302 | a key from an hour ahead is pinned to its own future |
| `Milestone.MilestoneIsUnique` | services/gateway/handler/snap/handler.go:1296-1302 | no other multiple of 90 days starts that window |
| `Milestone.Monotone` | services/gateway/handler/snap/handler.go:1296-1302 | a later now never gives an earlier milestone |
| `Milestone.ConstantInWindow` | services/gateway/handler/snap/handler.go:1296-1302 | for a key not from the future the milestone is the same for all times of a window |
| `Milestone.Idempotent` | services/gateway/handler/snap/handler.go:1296-1302 | within the int64 range the milestone of a milestone is itself |
| `Milestone.ProductNeverOverflows` | services/gateway/handler/snap/handler.go:1299-1301 | the duration product stays in int64, saturation included |
| `Milestone.SameSelection` | services/store/internal/repository/snaps.go:550-569 | two refreshes with one key, not from the future, in one window may select exactly the same revisions, whatever was uploaded between them |
| `Macaroon.ChecksExactly` | services/gateway/handler/auth/service.go:283-299 | for every valid request the check answers right for all permissions if and only if the location with its separator and the discharge key hold no acl marker, or nothing was asked for |
| `Macaroon.GrantsWhatWasAsked` | services/gateway/handler/auth/service.go:27-139 | with such a configuration a permission is granted if and only if it was requested |
| `Macaroon.NoPipeIsClean` | services/gateway/handler/auth/service.go:38-43 | a location without the separator is such a configuration |
| `Macaroon.ParsePrintList` | services/gateway/handler/auth/service.go:59-68 | the list of permissions prints and parses back |
| `Macaroon.OtherKind` | services/gateway/handler/auth/service.go:70-139 | a caveat of another kind is taken for the acl one only when the location itself is |
| `Macaroon.ThirdParty` | services/gateway/handler/auth/service.go:45-56 | the third-party caveat is taken for it exactly when the discharge key holds the marker |
| `Macaroon.HasPermission` | services/gateway/handler/auth/service.go:283-299 | the first caveat with the marker decides |
| `Macaroon.GenerateMacaroon` | services/gateway/handler/auth/service.go:21-156 | the caveats in their order; no token exactly when the expiry given does not parse |
| `Macaroon.CaveatsExactly` | services/gateway/handler/auth/service.go:27-139 | which caveat of which kind is in a macaroon, if and only if: the time, the permissions, channels and snap ids asked for, and the expiry, given or by default |
| `Macaroon.PrintsInOrder` | services/gateway/handler/auth/service.go:59-68 | a printed list keeps its order |
| `Macaroon.PrintsOne` | services/gateway/handler/auth/service.go:59-68 | from the list of none and of one on |
| `Macaroon.ChooseExpiry` | services/gateway/handler/auth/service.go:107-133 | the expiry given, or a year for one of the default permissions |
| `Macaroon.ValidateGenerateMacaroonRequest` | services/gateway/handler/auth/service.go:158-224 | exactly what is wrong is reported, and nothing if and only if the request is valid |
| `Macaroon.ValidExactly` | services/gateway/handler/auth/service.go:158-224 | the permissions, channels and packages a request may name, spelled out |
| `AccountView.GetAccount` | services/gateway/handler/account/handler.go:120-187 | snaps[series][name] exists if and only if some entry has that pair and shows the last such entry, with its publisher or the fallback and all its revisions |
| `AccountView.LastEntryIsShown` | services/gateway/handler/account/handler.go:149-187 | the last entry of a pair is shown under its own id, with the last account of its publisher, or a placeholder that keeps the publisher's id, and the revisions answered for it |
| `AccountView.NoEntryNoSnap` | services/gateway/handler/account/handler.go:149-187 | a pair no entry has is not shown |
| `AccountView.RevisionsInOrder` | services/gateway/handler/account/handler.go:133-147 | revisions come in the order of the answers |
| `AccountView.RevisionsOfOne` | services/gateway/handler/account/handler.go:133-147 | an answer gives its own entry's revisions and nothing else |
| `AccountView.MapRevisions` | services/gateway/handler/account/handler.go:133-147 | an id's revisions are the in-order concatenation of all responses for it |
| `AccountView.LastEntry` | services/gateway/handler/account/handler.go:149-187 | the scan used as reference finds the last match or none |
| `AccountView.LastAccount` | services/gateway/handler/account/handler.go:123-131 | so does the scan for publishers |

## Left out

- Two RPCs at once on one entry or subject: numbers are latest + 1 without a lock, so the numbering holds for RPCs one after the other.
- `UpdateSnapEntryWithMetadata`, uploads' status rows, comments, branches, search and every other read-only endpoint: they write nothing the theorems speak of.
- Looking a delta up by row ids when one upload wrote several rows: which row is last depends on the map order, so deltas are stated by sequence pair and path.
- The internals of SQL, Mongo and MinIO, transactions and time stamps of the database: queries and buckets are as described above.
- Temporary files, snap metadata extraction, timeouts and the size and architecture columns: a failure of any of them is one of the failing calls of `Env`.
- xdelta3, SHA3, HMAC, RSA signing, public-key decoding, uuid parsing and the time parser: parameters.
- gRPC, HTTP, routing, configuration, retries, Prometheus metrics, generated code, mocks, test data and stubs: no state worth an invariant.
- URL escaping: the delta route is modelled on unescaped paths, which is exact for names that can be registered.
- The recorder outside init, run and shutdown, and how often its buffered writer spills in the middle of a line: a spill may happen at any event.
- A recorder with a queue of capacity zero: there the model always drops, while a channel without a buffer hands an event to a waiting writer; the handlers use 10000.
- Concurrent use of one `fileRecorder` by two benchmarks: one benchmark at a time, as the handlers have it.
- Text.ParseInt64PrintInt: `time.Unix` and `Time.Unix` are inverse in the model; the extremes of int64 seconds, where Go's time arithmetic wraps, are not modelled.
- Milestone.SameSelection: the date is compared at full precision, while the database keeps microseconds.
- Macaroon.ParsePrintList: strings that need escapes, and white space between JSON tokens, are not modelled; permissions, channels and snap ids need neither.
- Macaroon.GenerateMacaroon: errors of the macaroon library (a caveat too long or not UTF-8) and the signature chain over the caveats are not modelled.
- AssertionService.Service.AddAccountAssertion: the real answer has no revision field; the model returns the number that was stored.
- AssertionService.Repository.FindLatest: error messages are fixed texts; codes, number and order of errors are as in the code.
- TrustChain.Climb: one fetched header per name, as the parser leaves it; a key or account is served the same way during one climb.
- Transfer.UnscannedUpload: a message is the bytes it had when it was sent, since sending serialises it before the buffer is reused.
- AccountView.GetAccount: price, status, icon and the other copied columns.
- Snap build and snap revision assertions, which have no revision numbers.

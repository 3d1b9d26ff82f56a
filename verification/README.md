# Document archive: a verified model

This project models the document archive: documents that a client asks for, a worker that fetches their pages
from a source and puts them in an object store, and the stores behind it. It is written for Dafny 4.11;
`dafny verify dfyconfig.toml` checks all of it.

## What is modelled

**The document lifecycle** (`model.dfy`, `lifecycle*.dfy`). A step machine: the worker has a position between any
two calls on a store or an object store while it processes queued documents or sweeps deleted ones, the page
downloads of one document run as interleaved tasks, and API calls (request, delete, refresh, restore) fire at any
position. A full refresh is two API steps, as it is two store calls in `internal/archive/app.go:196-199`. The
invariant in `lifecycle_invariant.dfy` is about one document and what concerns it, so that a step has to be
checked for the document it touches only. Two fields of the state record history and influence nothing: `torn`,
the documents whose objects a sweep removed, and `ledgers`, what became of each document's pages since the worker
last saved what it resolved. They make the conditions of the theorems exact.

`lifecycle_conduct.dfy` says what each call of the machine comes to, and that the machine's worker without
interference does what the sequential worker below does.

**One worker without interleaving** (`batches.dfy`, `sweeping.dfy`, `processing.dfy`, `app.dfy`). The class `App`
runs `ProcessDeleted`, `ProcessQueued` and `ProcessDocument` on the memory store and memory object stores.

**Two document stores** (`store_spec.dfy`, `memory_store.dfy`, `sqlite_spec.dfy`, `sqlite_store.dfy`,
`simulation.dfy`, `store_histories.dfy`, `queries.dfy`, `query_agreement.dfy`). `MemoryStore` keeps a sparse slice
of pages with holes. `SQLiteStore` keeps one row per page and rebuilds the slice. The classes are proved
against functions, and the functions are related by a simulation. Ids differ by one: memory counts from 0, SQLite
from 1.

**Downloads** (`recording.dfy`, `downloads.dfy`, `hitomi*.dfy`, `jmcomic*.dfy`, `objects.dfy`, `keys.dfy`,
`strings.dfy`). Both source handlers over a memory object store, and the object keys they use. A Hitomi download is
given its completion order, the answers of the server, and for each page the point where cancellation strikes it.

**The concurrency scheduler** (`scheduler_spec.dfy`, `scheduler.dfy`, `scheduler_machine.dfy`,
`scheduler_arithmetic.dfy`). The class has one method per section under the mutex. The machine runs any number of
callers over it. An epoch counts how often the broadcast channel was closed and replaced, so a caller that captured
epoch e waits on a closed channel exactly when the current epoch is larger.

**Data transformations** (`images.dfy`, `ciphers.dfy`). The strip rearrangement of images and the decryption of
responses.

## What the code does not promise

Six expected properties are false of the code. Each has a lemma that shows it and a lemma with the exact condition.

- Recorded pages can lose their objects when a document is restored between the object deletion and the purge of a
  sweep: `RestoreInSweepLosesObjects`, and `PagesAreBackedUnlessTorn` for the condition.
- An archived document can be short of pages when the second store call of a full refresh comes late:
  `LateClearEmptiesArchivedDocument`, and `ArchivedShortExactly` for the condition.
- It can also be short without any race, when a handler plans fewer pages than it resolved: `ShortPlanArchivesShort`,
  and `OrderlyRunsFallShortByPlanOnly` for the condition. The JMComic handler does so. It resolves the pages of the
  chapter but stores the metadata of the album, from which the download reads its pages
  (`internal/sources/jmcomic/handler.go:82-104`). The name of the test that covers it,
  `TestResolveDocumentStoresRawPhotoMetadata`, speaks of the photo's metadata. `AlbumWithoutImagesArchivesNothing`
  shows the failing input and `CompleteExactlyWhenAlbumListsImages` gives the condition. An album without an id resolves
  too, and its download always fails: `AlbumWithoutIdResolves` and `ReadableExactly`. The Hitomi handler plans what it
  resolves: `SameMetadataSamePlan`.
- The pages a failed Hitomi download has completed depend on the order in which its pages finish, because the first
  failure cancels the rest: `FailureDependsOnOrder`. Success and its outcome do not: `SuccessIgnoresOrder` and
  `SuccessfulOrdersAgree`.
- The two stores part after a page with an empty key, which the memory store takes for a hole:
  `EmptyKeyPartsTheStores` in both directions. Object keys are never empty.
- Wrong PKCS#7 padding is accepted when its last byte is in range: `WrongPaddingIsAccepted`, and
  `AcceptedIsPaddedExactly` for the condition.

## Assumptions

- The clock, what a source server answers, what the factories return, the MD5 digest, the block cipher, the address of
  an image and the order of the sort by page name are parameters. Of the digest only its form (32 hexadecimal
  digits) is used, of the sort only that it permutes.
- Time stamps are integers. A store call receives the time as a parameter.
- Each store method is one atomic step, because of its mutex or transaction. SQLite transactions work on a copy of the
  tables that replaces them on commit.
- `denied` in the object store and the flag of a sweep step stand for a backend that refuses to delete a prefix.

## Model

| member | source | states |
|---|---|---|
| `LifecycleTheorems.PurgedDocumentsAreClean` | internal/archive/app.go:237-283 | In every state reached by the worker interleaved with any API calls, a purged document has no pages, `Done = Total = 0`, and no object below its prefix in any backend |
| `LifecycleTheorems.NoDocumentIsStranded` | internal/archive/app.go:308-373 | In every reachable state a document that is resolving or downloading is the one the worker is processing, at a position after the claim and before the return |
| `LifecycleTheorems.ArchivedHasManifest` | internal/archive/app.go:359-370 | In every reachable state an archived document has its manifest in its backend, whatever sweeps and restores it has been through |
| `LifecycleFailures.FailuresEndFailedOrDeleted` | internal/archive/app.go:391-404 | In every reachable state each failure exit (refused load, saving the error, marking failed) leaves its document failed and carrying the cause, or finds it already deleted |
| `LifecycleTheorems.PagesAreBackedUnlessTorn` | internal/sources/hitomi/handler.go:79-133 | In every reachable state a recorded page has its object, under its own trimmed hash, if and only if no sweep has removed the objects of its document since its pages were last cleared or purged |
| `LifecycleTheorems.CalmRunsKeepPagesBacked` | internal/archive/app.go:245-277 | When no document is restored while a sweep round holds it, every recorded page of every document has its object under its hash at all times, except in the document between its object deletion and its purge |
| `LifecycleTheorems.ArchivedShortExactly` | internal/archive/app.go:338-354 | In every reachable state an archived document has `Done < Total` if and only if the pages due, less those API calls cleared, stay below the resolved total or the peak of its download; with nothing cleared, if and only if fewer pages were planned than resolved |
| `LifecycleTheorems.OrderlyRunsFallShortByPlanOnly` | internal/archive/app.go:338-354 | In every run where full refreshes clear while the document is still queued, an archived document has `Done < Total` if and only if its last download planned fewer pages than were resolved |
| `LifecycleTheorems.OrderlyRunsArchiveCompletely` | internal/archive/app.go:338-354 | If in addition every download plans at least what was resolved, archived implies `Done >= Total` |
| `LifecycleRaces.ShortPlanArchivesShort` | internal/archive/app.go:345-354 | A state reached without any race in which an archived document has `Done = 0 < Total = 1`: the download planned fewer pages than were resolved |
| `LifecycleSteps.StepKeeps` | internal/archive/app.go:211-404 | Each single step of worker, sweep, download task or API call keeps the inductive invariant behind the theorems above |
| `LifecycleRaces.RestoreInSweepLosesObjects` | internal/archive/app.go:266-274 | A reachable state in which an archived document records a page whose object is gone: a restore fell between the object deletion and the purge of a sweep |
| `LifecycleRaces.LateClearEmptiesArchivedDocument` | internal/archive/app.go:196-199 | A reachable state in which an archived document is empty although its total is 1: the second store call of a full refresh came late |
| `LifecycleConduct.VisitIsProcessing` | internal/archive/app.go:308-373 | Without interference the worker of the machine does what processing a document by itself comes to: it ends archived with what was resolved and downloaded, the bucket holds the pages and the manifest, and nothing else changes |
| `LifecycleConduct.PagesHoldBytes` | internal/sources/hitomi/handler.go:107-118 | After such a visit the object of each new page holds exactly the bytes fetched for it, with its content type and hash |
| `LifecycleConduct.PutStoresBytes` | internal/sources/hitomi/handler.go:107-128 | In any state the put of a page stores exactly the fetched bytes, and the page to be recorded tells their number |
| `LifecycleConduct.HeadsExactly` | internal/sources/hitomi/handler.go:85-103 | An object under the hash, or without an ETag, is reused with its size; another one ends the page; a missing one is fetched |
| `LifecycleConduct.AnswersExactly` | internal/sources/scheduler.go:77-82 | A rate-limited page starts again up to five attempts, bytes are kept as they came, and any other answer ends the page |
| `LifecycleConduct.RequestExactly` | internal/archive/app.go:83-109 | A request adds one queued, empty document exactly when source, source document id, factory and backend are known and the identity is new |
| `LifecycleConduct.RefreshExactly` | internal/archive/app.go:188-200 | A refresh queues a document exactly when it is archived, failed or queued; a full one remembers to clear its pages |
| `LifecycleConduct.ClearExactly` | internal/archive/app.go:199-199 | The second half of a full refresh empties a visible document, once for each refresh |
| `LifecycleConduct.DeleteAndRestoreExactly` | internal/archive/app.go:200-209 | Deleting hides exactly the visible documents, restoring queues exactly the deleted and purged ones |
| `LifecycleConduct.QueueBatchExactly` | internal/archive/app.go:285-297 | An idle worker takes exactly the first five queued documents, by id |
| `LifecycleConduct.SweepBatchExactly` | internal/archive/app.go:238-254 | A sweep takes exactly the first five deleted documents, by id, and ends when there is none |
| `LifecycleConduct.SweepDocumentExactly` | internal/archive/app.go:255-281 | A stuck document is passed over; of any other the objects below its prefix are removed and then it is emptied; a full batch that purged something leads to a new query |
| `LifecycleConduct.FaultsExactly` | internal/archive/app.go:314-334 | The worker turns to the failure path with the first thing that is wrong, in the order of the source |
| `LifecycleConduct.CollectExactly` | internal/sources/hitomi/handler.go:176-200 | A download is collected once all its tasks are over, and fails when any was abandoned |
| `LifecycleConduct.AbandonsExactly` | internal/sources/hitomi/handler.go:93-133 | A page task that fails, or whose page the store refuses, is abandoned and nothing else changes |
| `Apps.App.ProcessDeleted` | internal/archive/app.go:237-283 | Terminates, and purges exactly the deleted documents that are not stuck and have fewer than five stuck deleted ones before them; exactly the objects of these documents are gone |
| `Apps.App.PurgeDocument` | internal/archive/app.go:256-274 | A document is purged only after its objects were deleted; a document whose backend is missing or refuses is left as it is |
| `Sweeping.FewStuckPurgesAll` | internal/archive/app.go:279-281 | When fewer than five deleted documents are stuck, a sweep purges all the others |
| `Sweeping.StuckBatchEndsSweep` | internal/archive/app.go:279-281 | A full batch of stuck documents means that everything purgeable has been purged already |
| `Sweeping.ShortBatchEndsSweep` | internal/archive/app.go:279-281 | A batch of fewer than five held every deleted document, so nothing purgeable is left |
| `Sweeping.PurgedObjectsAreGone` | internal/archive/app.go:263-270 | After a sweep nothing lies below the prefix of a purged document |
| `Sweeping.OtherObjectsStay` | internal/archive/app.go:263-270 | After a sweep every object below the prefix of any other document is unchanged |
| `Batches.BatchIsFirstFew` | internal/archive/app.go:237-254 | A batch lists, by id, exactly the documents of the status that fewer than the limit of the same status precede |
| `Apps.App.ProcessDocument` | internal/archive/app.go:308-373 | A queued document ends archived exactly when every step succeeds, with its manifest stored under its own key and body, and failed with the first cause otherwise; one that is not queued is turned away; its pages survive unless a download began; other documents and other objects do not change |
| `Apps.App.FinishDocument` | internal/archive/app.go:356-370 | The manifest is stored with its body before the document is archived |
| `Apps.App.FailDocument` | internal/archive/app.go:391-404 | A document that may fail is failed and carries the cause; one that may not keeps its status; an invisible one is untouched |
| `Apps.App.ProcessQueued` | internal/archive/app.go:285-306 | Exactly the first five queued documents are processed, each as it would be alone; those archived have their manifests; the queued count falls by `min(5, count)` |
| `Processing.ArchivedDoneExactly` | internal/archive/app.go:345-354 | An archived document has `Done >= Total` if and only if no download was needed or at least as many pages were recorded as resolved |
| `Processing.FaithfulDownloadArchivesAll` | internal/archive/app.go:345-354 | A handler that hands each of the n resolved pages to the hook once, in any order, never meets a duplicate, and the archived document lists exactly these pages with `Done = Total = n` |
| `Processing.CompleteDocumentsKeepTheirPages` | internal/archive/app.go:345-354 | A document that already has as many pages as were resolved keeps them and is archived without a download |
| `Processing.ArchivedCarriesResolved` | internal/archive/app.go:331-344 | Whatever the download does, the archived document has the resolved title and metadata, no error text, and its identity |
| `Processing.ProcessedIsLocal` | internal/archive/app.go:308-373 | How processing one document ends does not depend on the other documents |
| `StoreHistories.StoresBehaveAlike` | internal/documents/sqlite_store.go:122-807 | From fresh stores, every run of calls succeeds and fails alike in both stores and leaves the memory slice of each document equal to what SQLite rebuilds from its rows |
| `StoreHistories.EmptyKeyPartsTheStores` | internal/documents/store.go:504-506 | After a recorded page the stores agree on every next page for the slot if and only if the recorded page had a key |
| `StoreHistories.EveryStoreIsSound` | internal/documents/store.go:462-529 | In every store that calls which leave `Done` alone can reach, `Done` equals the number of page rows, purged documents are empty and source identities are unique |
| `StoreHistories.DoneStaysWithinTotal` | internal/documents/store.go:462-502 | Store calls other than metadata updates keep `Done <= Total` |
| `StoreHistories.DocumentsLast` | internal/documents/store.go:165-178 | In every run of store calls no document disappears or changes id, source identity or creation time |
| `StoreHistories.StatusFollowsGraph` | internal/documents/model.go:41-67 | Each store call moves the status of an existing document along the graph, or is a restore of a deleted or purged one to queued |
| `Model.MovesAreTheGraph` | internal/documents/model.go:32-67 | The possible moves between statuses and the visible statuses, listed pair by pair |
| `StoreSpec.TransitionsExactly` | internal/documents/store.go:337-359 | A transition succeeds exactly along a listed move or by staying, and into purged only for an emptied document; it changes the status and the time stamp |
| `StoreSpec.RefreshAndDeleteSucceed` | internal/documents/store.go:238-259 | Archived and failed documents can be queued again, exactly the visible ones deleted, exactly the deleted and purged ones restored |
| `StoreSpec.CreatesExactly` | internal/documents/store.go:197-236 | A document is accepted exactly when its identity is new and its pages carry their positions; every field of the new document |
| `StoreSpec.PurgesClearsUpdatesExactly` | internal/documents/store.go:308-428 | When purging, clearing and updating succeed, and every field they change |
| `StoreSpec.AddsExactly` | internal/documents/store.go:462-481 | When a page is added, where it and the holes before it go, what stays, and the new progress |
| `StoreSpec.RemovesExactly` | internal/documents/store.go:483-502 | When a page is removed, which pages stay, that no hole is left at the end, and the new progress |
| `StoreSpec.RefusalsExactly` | internal/documents/store.go:175-502 | Which refusal each call gives for which reason: missing, hidden, negative index, occupied slot, forbidden move, not cleared |
| `StoreHistories.OnlyRestoreRevives` | internal/documents/store.go:386-406 | In every run without a restore of it, a deleted document stays deleted or becomes purged, and a purged one stays purged |
| `Simulation.CreateAgrees` | internal/documents/sqlite_store.go:122-194 | Create succeeds on the same inputs in both stores and keeps them equal; a known identity is answered with the same document; no page of a new document can be refused after the first checks |
| `Simulation.AddPageAgrees` | internal/documents/sqlite_store.go:401-441 | AddPage succeeds on the same inputs in both stores and keeps slice and rows equal |
| `Simulation.RemovePageAgrees` | internal/documents/sqlite_store.go:465-487 | RemovePage succeeds on the same inputs in both stores; trimming trailing holes matches the rebuilt slice |
| `Simulation.ResetPagesAgrees` | internal/documents/sqlite_store.go:585-618 | ResetPages succeeds on the same inputs in both stores and keeps them equal |
| `Simulation.PurgeAgrees` | internal/documents/sqlite_store.go:510-551 | Purge succeeds on the same inputs, reports the same page count and keeps the stores equal |
| `Simulation.TransitionAgrees` | internal/documents/sqlite_store.go:658-688 | TransitionTo succeeds on the same inputs in both stores, including the emptiness check for purged, and keeps them equal |
| `Simulation.UpdateMetaAgrees` | internal/documents/sqlite_store.go:355-374 | UpdateMeta succeeds on the same inputs in both stores for every callback and keeps them equal |
| `Simulation.RestoreAgrees` | internal/documents/sqlite_store.go:553-583 | Restore succeeds on the same inputs in both stores and keeps them equal |
| `Simulation.DeleteAgrees` | internal/documents/sqlite_store.go:306-333 | Delete succeeds on the same inputs in both stores and keeps them equal |
| `Simulation.GetAgrees` | internal/documents/sqlite_store.go:196-215 | Get finds the same document in both stores, up to the id shift |
| `Simulation.CountIsRowCount` | internal/documents/store.go:508-516 | The number of existing pages in the slice is the number of page rows |
| `MemoryStores.MemoryStore.Create` | internal/documents/store.go:197-236 | Rejects a known identity or a page out of place; otherwise appends the document with its pages, and cannot fail after the append |
| `MemoryStores.MemoryStore.AddPageLocked` | internal/documents/store.go:462-481 | Grows the slice with holes and fills the slot, or reports a negative index or an occupied slot |
| `MemoryStores.MemoryStore.RemovePageLocked` | internal/documents/store.go:483-502 | Empties the slot and drops trailing holes, or reports a missing page |
| `MemoryStores.MemoryStore.Purge` | internal/documents/store.go:361-384 | Empties a deleted or purged document and reports how many pages it had |
| `MemoryStores.MemoryStore.TransitionTo` | internal/documents/store.go:337-359 | Follows the status graph; entering purged also needs an empty document |
| `SqliteStores.SQLiteStore.Create` | internal/documents/sqlite_store.go:122-194 | The transaction that inserts a document and its pages, undone when any part fails; a known identity is answered with the existing document |
| `SqliteStores.AddPageIn` | internal/documents/sqlite_store.go:401-441 | Inserts a page row and raises the progress, or fails without effect |
| `SqliteStores.ListPages` | internal/documents/sqlite_store.go:780-807 | The slice rebuilt from page rows has each row at its index, holes between, and no trailing hole |
| `SqliteStores.SQLiteStore.Purge` | internal/documents/sqlite_store.go:510-551 | Deletes the page rows and empties the document, or leaves the database alone |
| `PageSlices.TidyUnplace` | internal/documents/store.go:483-502 | Removing a page never leaves a trailing hole |
| `PageSlices.CountBound` | internal/documents/store.go:508-516 | As many pages exist as the slice is long exactly when it has no hole |
| `MemoryStores.MemoryStore.Query` | internal/documents/store.go:261-306 | The loop, sort and slicing return the window of the stably sorted, filtered documents |
| `Queries.AnyStableSortAgrees` | internal/documents/store.go:284-292 | Any sequence that sorts the matches by key and keeps their order within a key is the result of the sort used in the model |
| `Queries.RunIsSlice` | internal/documents/store.go:294-304 | A query returns the slice `[max(offset, 0), +limit)` of the ordered matches |
| `Queries.RunIsFilteredAndOrdered` | internal/documents/store.go:261-292 | A query lists documents of the asked status, or visible ones, from the asked source, in the asked order of id, creation or update time |
| `Queries.BuildsExactly` | internal/documents/store.go:112-153 | When a query is built, which defaults it gets, and that building it again changes nothing |
| `Queries.WalkIsComplete` | internal/documents/store.go:261-306 | Walking offsets 0, l, 2l, … over an unchanged store yields every match exactly once and in order |
| `QueryAgreement.QueryAgrees` | internal/documents/sqlite_store.go:217-282 | Ordered by id, both stores return the same documents in the same order, up to the id shift |
| `Keys.KeysNeverCollide` | internal/archive/keys.go:11-47 | A page key or manifest key of document j starts with the prefix of document i if and only if i = j |
| `Keys.PrefixesDisjoint` | internal/archive/keys.go:11-13 | No string at all lies below the prefixes of two different documents |
| `Keys.PageKeysInjective` | internal/archive/keys.go:19-32 | Equal page keys have equal document ids, trimmed hashes and extensions |
| `Keys.ManifestIsNoPage` | internal/archive/keys.go:15-32 | No page key equals a manifest key |
| `Keys.PageKeyShape` | internal/archive/keys.go:19-32 | A page key exists exactly for trimmed hashes that are one safe path segment, and is `documents/<id>/pages/<hash>.<ext>` |
| `Keys.ExtensionsOfTypes` | internal/archive/keys.go:34-47 | Keys begin with "documents"; each known content type has its own extension, and all others share one |
| `Strings.TrimSpaceTrims` | internal/archive/keys.go:20-21 | Trimming takes white space, and nothing else, from both ends |
| `Strings.SpacesAreWhite` | internal/archive/keys.go:20-21 | White space is the set of characters the standard library trims |
| `Strings.SplitGlue` | internal/archive/keys.go:31-31 | Splitting a joined path gives back its segments |
| `Strings.ItoaRoundTrip` | internal/archive/app.go:263-263 | Reading a decimal id back gives the id, so ids differ when their numerals do |
| `Objects.MemoryObjectStore.DeleteObject` | internal/storage/memory.go:46-58 | Removes one object, or reports that it is missing |
| `Objects.MemoryObjectStore.DeletePrefix` | internal/storage/memory.go:60-76 | The loop removes exactly the objects below the prefix, or fails and removes none |
| `Objects.MemoryObjectStore.PutObject` | internal/storage/memory.go:78-118 | Stores the content under the key with the given or computed ETag, or reports a missing key or a wrong size |
| `Recording.RecordsExactly` | internal/documents/store.go:462-481 | Pages with keys and different indexes are all recorded on an emptied document; the slice shows exactly them and `Done` counts them |
| `Recording.OrderDoesNotMatter` | internal/documents/store.go:462-481 | Recording the same pages in two orders leaves the same store |
| `Recording.PlannedPagesFillTheSlice` | internal/documents/store.go:462-481 | Pages planned for the slots 0 to n - 1, recorded in any order, give exactly the planned slice without a hole and `Done = n` |
| `Galleries.DecodeDownloadPages` | internal/sources/hitomi/resolver.go:313-332 | Page i describes file i and carries index i; it fails exactly when some file has no address |
| `Galleries.WebpNames` | internal/sources/hitomi/resolver.go:363-372 | The extension after the last dot is replaced; a name without one gets it added, an empty name a default |
| `Galleries.SortingPermutesIndexes` | internal/sources/hitomi/resolver.go:187-189 | After any sort the indexes are still a permutation of 0 to n - 1 |
| `Hitomi.Handler.DownloadPage` | internal/sources/hitomi/handler.go:79-133 | One attempt, with every branch of the source and every point at which cancellation can strike; a new object holds exactly the fetched bytes, and the returned page tells their number |
| `Hitomi.Handler.DownloadWithRetries` | internal/sources/scheduler.go:68-84 | The attempts that follow rate limits, at most five in all |
| `HitomiOutcomes.RetriedExactly` | internal/sources/hitomi/handler.go:79-133 | Over all its attempts a download puts at most one object and records its page at most once, under that object; it fails only when the object cannot be obtained, the download is cancelled, or the store refuses the page |
| `HitomiOutcomes.FetchedExactly` | internal/sources/scheduler.go:68-84 | Bytes arrive if and only if one of five attempts gets them after nothing but rate limits and before cancellation, and they are the bytes of that attempt |
| `HitomiOutcomes.NewObjectsHoldFetched` | internal/sources/hitomi/handler.go:107-118 | Every object the downloads have added holds exactly the bytes some attempt got for a page with that key |
| `HitomiOutcomes.ArrivesExactly` | internal/sources/hitomi/handler.go:79-133 | A download arrives if and only if it is not cancelled, its hash gives a key, and the object was there under the hash, or was brought first by an earlier finisher with that hash, or nobody brought it and an attempt of its own fetches it |
| `HitomiOutcomes.AllArriveExactly` | internal/sources/hitomi/handler.go:152-174 | Without cancellation, and with shared keys answered alike, all downloads arrive if and only if every page is good on its own: its object is there under its hash, or the server hands it out and no page with its key has another hash |
| `HitomiOutcomes.SuccessLeavesSameObjects` | internal/sources/hitomi/handler.go:152-174 | Two orders in which all downloads arrive leave the same objects, when positions that share a key get the same bytes |
| `HitomiOutcomes.DistinctKeysAnswerAlike` | internal/sources/hitomi/handler.go:79-83 | Galleries without repeated images meet the hypothesis about shared keys |
| `Galleries.Collect` | internal/sources/hitomi/handler.go:176-200 | Results in completion order come back in position order: all pages on success, exactly the completed ones and the first failure otherwise |
| `Galleries.CollectionIgnoresOrder` | internal/sources/hitomi/handler.go:176-200 | The same results in two orders are collected to the same pages |
| `HitomiOrders.SuccessfulOrdersAgree` | internal/sources/hitomi/handler.go:152-200 | Cancellation strikes only downloads that finish after a failure. Then two successful completion orders of one gallery on an emptied document return the same pages and leave the same objects, slice and count, when positions that share a key get the same bytes |
| `HitomiOrders.SuccessIgnoresOrder` | internal/sources/hitomi/handler.go:152-200 | Under the same rule for cancellation, one completion order succeeds if and only if the other does, which is if and only if every page is good on its own, when positions that share a key are answered alike |
| `HitomiOrders.ComesInAlone` | internal/sources/hitomi/handler.go:152-200 | With distinct keys a page is returned if and only if its own object, its own answers and its own cancellation let it arrive |
| `HitomiOrders.FailureDependsOnOrder` | internal/sources/hitomi/handler.go:176-200 | When a download fails, the completed pages do depend on the order: two pages of which the first cannot be fetched give no page in one order and one page in the other |
| `Hitomi.Handler.ResolveDocument` | internal/sources/hitomi/handler.go:203-223 | Succeeds exactly when the metadata can be fetched and read, lists a file, and every file has an address; page k describes the page at position k of the sort |
| `Galleries.SameMetadataSamePlan` | internal/sources/hitomi/handler.go:135-147 | Resolving and downloading the same metadata plan the same pages, each file once, even if the addresses changed in between |
| `Galleries.ReadsExactly` | internal/sources/hitomi/resolver.go:230-241 | A gallery is accepted exactly when its metadata can be read and lists a file |
| `Hitomi.Handler.ArchiveContent` | internal/sources/hitomi/handler.go:135-201 | For every completion order, on an emptied document exactly the downloads that arrive succeed and the slice shows exactly their pages; on success it is hole-free of length n with `Pages[i].Index = i` and `Done = n`; the bucket is exactly what the downloads put, and the document store has recorded exactly the returned pages and changed nothing else |
| `Jmcomic.ResolvePages` | internal/sources/jmcomic/handler.go:214-224 | Page k has the name of image k, the digest of album, time and name, and the content type of the name |
| `Jmcomic.ContentTypesOfNames` | internal/sources/jmcomic/resolver.go:400-409 | Names ending in .webp or .png, in either case, have their own content type; all others count as JPEG |
| `Jmcomic.Handler.ResolveDocument` | internal/sources/jmcomic/handler.go:61-97 | Succeeds exactly when the servers answer with one readable single-chapter album and its chapter; the pages are those of the chapter, and the stored metadata is the album |
| `JmcomicCompleteness.CompleteExactlyWhenAlbumListsImages` | internal/sources/jmcomic/handler.go:82-104 | An archived document is complete if and only if it had all pages of the chapter already or the album lists at least as many images as the chapter |
| `JmcomicCompleteness.PlannedIsResolvedExactly` | internal/sources/jmcomic/handler.go:82-104 | The download plans as many pages as were resolved if and only if album and chapter list as many images |
| `JmcomicCompleteness.Download` | internal/sources/jmcomic/handler.go:99-183 | A download that succeeds has handed as many pages to the hook as the stored metadata plans, and the store has recorded exactly these |
| `JmcomicCompleteness.ReadableExactly` | internal/sources/jmcomic/handler.go:103-109 | The download of a resolved comic gets past its metadata if and only if the album has an id of its own and its images, if any, are a list of texts |
| `JmcomicMetadata.PhotosExactly` | internal/sources/jmcomic/resolver.go:84-114 | A chapter is read field by field, and accepted exactly when its images are texts or nulls |
| `JmcomicMetadata.AlbumsExactly` | internal/sources/jmcomic/resolver.go:69-103 | An album is read with its id, name and number of chapters, and the exact condition for that |
| `JmcomicMetadata.IdsExactly` | internal/sources/jmcomic/resolver.go:116-130 | An id is the text, or the number as it is written |
| `JmcomicCompleteness.AlbumWithoutIdResolves` | internal/sources/jmcomic/handler.go:103-109 | An album without an id resolves, and its download then fails whatever the server answers |
| `JmcomicCompleteness.AlbumWithoutImagesArchivesNothing` | internal/sources/jmcomic/handler.go:82-104 | A new document whose album lists no images and whose chapter lists two is archived with `Done = 0` and `Total = 2` |
| `JmcomicCompleteness.AlbumWithoutImagesResolves` | internal/sources/jmcomic/handler.go:82-97 | Such an album and chapter resolve, to two pages of which none is planned |
| `Jmcomic.Handler.ArchivePage` | internal/sources/jmcomic/handler.go:121-180 | One page is obtained and recorded, or the document store is left alone; it fails only when the page cannot be obtained or is refused; a new object holds exactly the fetched bytes |
| `Jmcomic.Handler.ArchiveContent` | internal/sources/jmcomic/handler.go:99-183 | Pages are archived in order up to the first one that is neither present under its hash, nor brought by an earlier page, nor fetchable; all are archived exactly when there is none; existing objects never change and new ones hold the fetched bytes |
| `Jmcomic.AcceptableIsObtainable` | internal/sources/jmcomic/handler.go:121-160 | Whether a page will be archived is decided before the loop starts, although earlier pages add objects |
| `Scheduler.ConcurrencyScheduler.constructor` | internal/sources/scheduler.go:47-65 | Any pair of bounds is clamped to a schedule whose limit lies between one and the capacity |
| `Scheduler.ConcurrencyScheduler.TryAcquire` | internal/sources/scheduler.go:86-100 | A permit only when the block is over and permits in flight are below the limit; the caller otherwise learns the channel and the delay |
| `Scheduler.ConcurrencyScheduler.Finish` | internal/sources/scheduler.go:120-131 | Returns the permit, reacts once per generation and signals the waiters |
| `Scheduler.ConcurrencyScheduler.ApplyRateLimitLocked` | internal/sources/scheduler.go:133-157 | Halves the limit, lengthens the backoff and starts a new generation, unless the permit is out of date |
| `Scheduler.ConcurrencyScheduler.ApplySuccessLocked` | internal/sources/scheduler.go:159-174 | Counts a success, and at the limit raises it and shortens the backoff |
| `SchedulerMachine.NoLostWakeUp` | internal/sources/scheduler.go:86-131 | In every reachable state a waiting caller can wake, or has a timer for the current block, or some task is running; and the end of any running task wakes every waiting caller |
| `SchedulerMachine.WaiterGetsThrough` | internal/sources/scheduler.go:86-118 | When no task is running a waiting caller gets a permit by its own steps once enough time has passed |
| `SchedulerMachine.BoundsHold` | internal/sources/scheduler.go:47-65 | In every reachable state the semaphore counts the running callers, `1 <= limit <= capacity`, `0 <= successes < limit` and `0 <= backoff <= maxBackoff` |
| `SchedulerMachine.NoAcquireAboveLimit` | internal/sources/scheduler.go:86-95 | No acquire leaves more permits in flight than the limit |
| `SchedulerMachine.RunningIsCounted` | internal/sources/scheduler.go:124-124 | Whoever returns a permit finds it in the semaphore, so the receive cannot block |
| `SchedulerSpec.AcquireKeeps` | internal/sources/scheduler.go:86-95 | An acquire keeps all bounds and takes the permits in flight at most up to the limit, so the send cannot block |
| `SchedulerMachine.OneReactionPerGeneration` | internal/sources/scheduler.go:133-157 | In every run at most one rate limit of each generation changes the schedule, and `generation` counts exactly those |
| `SchedulerMachine.NewPermitsReact` | internal/sources/scheduler.go:96-157 | In every reachable state a caller gets a permit exactly when no block runs and the limit leaves room; it is of the current generation, and a rate limit then halves the limit, starts a new generation and a pause |
| `SchedulerMachine.PausesRunInFull` | internal/sources/scheduler.go:89-156 | Until the clock reaches the end of the current block, no run starts a task, moves the end of the block, or changes limit, backoff or generation |
| `SchedulerMachine.LimitedTasksRetry` | internal/sources/scheduler.go:77-82 | In every reachable world a rate-limited task ends its call exactly when it was the last allowed and otherwise leads to another attempt; any other result ends the call and is returned |
| `SchedulerMachine.SettingsAreFixed` | internal/sources/scheduler.go:12-16 | Five attempts, and a backoff between one and thirty seconds, in every reachable world |
| `SchedulerMachine.AttemptsAreBounded` | internal/sources/scheduler.go:68-84 | A call of Do runs its task at most `maxAttempts` times, returns each permit it took exactly once, and is never over with a rate limit as its result |
| `SchedulerSpec.StaleFinishOnlyReturns` | internal/sources/scheduler.go:120-139 | A finish changes more than the semaphore and the channel exactly when its permit is current and its task was rate limited, or succeeded with something left to recover |
| `SchedulerSpec.RateLimitPause` | internal/sources/scheduler.go:142-156 | The pause is `min(max(grown backoff, Retry-After), maxBackoff)` and starts at the clock |
| `SchedulerArithmetic.RunsRaiseExactly` | internal/sources/scheduler.go:159-169 | In every run without an effective rate limit the limit has reached M exactly when `(M(M-1) - L(L-1))/2` current successes, less those already counted, have come back |
| `SchedulerArithmetic.RunsFallExactly` | internal/sources/scheduler.go:133-147 | In every run from backoff 0 without a current success or a Retry-After, h effective rate limits give `limit = max(1, L / 2^h)` and `backoff = min(initial * 2^(h-1), max)` |
| `SchedulerArithmetic.PotentialCountsSuccesses` | internal/sources/scheduler.go:159-169 | Below capacity `limit(limit-1)/2 + successes` grows by exactly one per current success, whatever stale results come between |
| `SchedulerArithmetic.RunsRecoverExactly` | internal/sources/scheduler.go:159-173 | In every run without an effective rate limit, r completed rounds of successes give `limit = min(L + r, capacity)`, and the backoff halved r times, or 0 once it had sunk to the initial backoff |
| `Images.RearrangeImage` | internal/sources/jmcomic/resolver.go:363-386 | Without segments the image is returned as it is; otherwise strip i of the result is the i-th strip of the source counted from the bottom, in the numbers of the source |
| `Images.SegmentCounts` | internal/sources/jmcomic/resolver.go:347-361 | Comics older than the scrambling are left alone; all others are cut into an even number of strips up to 20, ten for the older ones and as many as the last character of the digest says for the others |
| `Images.OneStripPerRow` | internal/sources/jmcomic/resolver.go:372-384 | Every destination row lies in exactly one strip, so it is written exactly once |
| `Images.RowMapIsBijection` | internal/sources/jmcomic/resolver.go:363-386 | The row map stays in the image and RowUnmap undoes it |
| `Images.RowUnmapIsBijection` | internal/sources/jmcomic/resolver.go:363-386 | Every source row is the image of exactly one destination row, so none is lost |
| `Images.TwiceRestoresExactly` | internal/sources/jmcomic/resolver.go:363-386 | Rearranging twice restores every image of a height if and only if the segment count divides the height or exceeds it |
| `Images.NumberedIsNotRestored` | internal/sources/jmcomic/resolver.go:363-386 | Otherwise the image with numbered rows is not restored |
| `Images.RowsArePermuted` | internal/sources/jmcomic/resolver.go:363-386 | Every row of the scrambled image is found again at the place RowUnmap names |
| `Ciphers.DecryptPayload` | internal/sources/jmcomic/resolver.go:324-345 | The block loop and the unpadding yield what the specification of decryption says, error cases included |
| `Ciphers.MapBlocksAt` | internal/sources/jmcomic/resolver.go:336-339 | Each block of the decrypted payload is the decryption of the block at its place |
| `Ciphers.DecryptUndoesEncrypt` | internal/sources/jmcomic/resolver.go:324-345 | For every message and every block permutation with an inverse, decrypting the padded blockwise encryption returns the message |
| `Ciphers.AcceptedExactly` | internal/sources/jmcomic/resolver.go:333-344 | A payload is accepted exactly when it has whole blocks and its last decrypted byte is between 1 and 16; the output is that much shorter |
| `Ciphers.AcceptedIsPaddedExactly` | internal/sources/jmcomic/resolver.go:340-344 | An accepted payload carries correct PKCS#7 padding exactly when the other padding bytes equal the last |
| `Ciphers.WrongPaddingIsAccepted` | internal/sources/jmcomic/resolver.go:340-344 | Under every key there is a payload that is accepted although its padding bytes before the last are wrong |

## Left out

- HTTP routes, authentication, JSON bodies, configuration, logging and `main`: plumbing.
- The S3 object store: its prefix deletion may stop midway, so claims about objects use the memory store.
- `GetPage`, `QueryDocument` and presigned addresses: they only read.
- The default storage name: a request in the machine names its backend after the default has been filled in.
- Process crashes, panics and cancelled contexts of the worker: documents may keep their status after those.
  Cancelled waits in the scheduler and the cancellation inside a Hitomi download are modelled.
- Failures of the storage engine: a SQLite transaction commits or is undone, it does not fail by itself.
- SQL text, schema and time formats: SQLite orders time stamps as text, so `QueryAgrees` is about the order by id.
- Which error a store returns: the simulation compares success and failure and the resulting contents.
- Aliasing of returned documents: the Go memory store hands out values that may share slices with its state.
- Wrap-around of the 64-bit generation counter of the scheduler.
- The fairness of callers racing for permits: `WaiterGetsThrough` is about a caller on its own.
- Interleaving inside `ArchiveContent`: the Hitomi class runs one download at a time in an arbitrary completion order; interleaved tasks are in the lifecycle machine.
- Apps.App.ProcessDocument: the handler is a script of what it resolves, records and returns, so the objects its download puts are not part of this method; they are in the handler classes and the lifecycle machine.
- Hitomi.Handler.DownloadWithRetries: waiting for a permit is not part of this method; it is in the scheduler machine.
- Jmcomic.Handler.ResolveDocument: JSON is a tree of values; field names are matched exactly, fields the readers do not use are ignored, and `ScrambleID` is not read from the metadata.
- Hitomi.Handler.DownloadPage: the network retries inside the resolver are one answer, and nothing is claimed about the bytes after a broken copy.
- Images.RearrangeImage: images have their origin at (0, 0) and are rows of pixels; decoding and encoding are not modelled, and the digest digit of the segment count is a parameter.
- Ciphers.DecryptPayload: base64 decoding is a parameter, and the key is part of the block map.
- The address arithmetic of `DownloadURL` and `ParseGG`: they rest on regular expressions.
- `RunWorker` tickers: the machine lets the worker start a batch or a sweep whenever it is idle.

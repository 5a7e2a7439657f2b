# Verification model of the fstore object store

fstore keeps each distinct content once. A PostgreSQL database records buckets, objects,
the links between them and the errors found by the last integrity check; a file tree holds
one file per object and one per unfinished upload (a "part"). The two stores are changed
one after the other, by several processes, and must agree. This project models both stores
and proves what they guarantee together. `dafny verify dfyconfig.toml` checks everything.

The model is built in layers:

- `Relations`, `RelationLaws`, `Accounting`, `Calls`, `BucketListing`: the four tables as a
  value, every SQL function as a function on tables (a failed call returns no tables, which
  is the rollback), what each call keeps, and the conservation laws between the counting
  queries. `Sums` has the laws of finite sums these need.
- `Database`, `Filesystem`, `ObjectStore`: the classes, whose methods run the statements of
  the SQL functions, the file operations on one name space of paths, and the steps of
  `commit_part`, `prune` and `check`; each is proved equal to its specification function.
- `Store`: database and files as one state, operations run to completion, part ids chosen
  by clients in any way, reused ones included. Files and rows agree exactly after any run.
- `Interleaving`: uploads, downloads, edits and prunes taken apart into steps and run in any
  order, with generated part ids. Every run has the effect of complete operations of `Store`
  in the order of their database steps, and no content is lost at any moment; what can be
  left over, and when a download can fail, is stated exactly.
- `Checking`, `CheckPipeline`, `Checker`: the check of one object, the concurrent check as a
  machine of small steps that refines the sequential check under every schedule, and the
  loop itself as a class each of whose states is a reachable state of that machine.
- `Text`, `IdList`, `Transfer`, `Server`: the id list of a bulk delete, chunked uploads and
  downloads, and what clients can rely on from upload to download.

SHA-256 and the text that libmagic gives for a file are arbitrary functions (`Probe`). That the checksum is
injective is a hypothesis (`Injective`) of exactly the lemmas that claim equal contents.
UUIDs are opaque texts, read by an arbitrary partial function `parse`. Generated UUIDs
(`gen_random_uuid()`, the part id generator) are parameters.

## Where the code falls short of the obvious promise

- Row sizes can be wrong after a checksum collision: a commit under the id of a stored
  object, with other contents of the same checksum, replaces the file and keeps the row.
  `Store.CommitDescribes` states exactly when a commit keeps rows and files in step, and
  `Store.CollisionExample` gives an instance.
- An object file without a row can be left behind when a prune overtakes an upload between
  its database step and its rename. `Interleaving.FileWithoutRow` is such a run;
  `Interleaving.FilesMatchRowsExactly` states exactly which runs leave none.
- A download can fail to open an object that it has just looked up in its bucket. It does
  exactly when, at the time of the open, the upload that created the object has not renamed
  its part yet, or a prune has removed the file since (`Interleaving.DownloadWorksExactly`);
  once the upload has finished, exactly when the prune's removal of the file falls between
  the lookup and the open (`Interleaving.OnlyPruneSpoilsDownload`).
  `Interleaving.DownloadTooEarly` and `Interleaving.DownloadOvertaken` are such runs. What is
  opened is always what the looked-up row describes.
- `get_object` into a buffer counts with a 32-bit `int`: a chunk lands where it belongs if and
  only if it starts below 2 GiB (`Transfer.IndexIsOffsetExactly`). With chunks of at most
  2 GiB the download is right if and only if all of them start there, and leaves the buffer
  otherwise (`Transfer.CopiedExactly`); `Transfer.TwoGigabytesAndOne` is a download that
  leaves it, `Transfer.FourGigabytesAndOne` one that overwrites its own beginning.
- Bucket names are trimmed when given but not when looked up: a new bucket is found by the
  name that was asked for if and only if that name has no white space around it
  (`BucketListing.FoundByGivenNameExactly`); the name " a" is an instance
  (`BucketListing.PaddedNameIsLost`).

## Model

| member | source | states |
|---|---|---|
| `RelationLaws.AddObjectCases` | share/fstore/db/api.sql:60-128 | Over all cases of id known, checksum known and bucket present: the call succeeds exactly when the bucket exists and the checksum is known or the id is free, and fails with the NULL before it fails with the bucket; on success exactly one row comes back, it has the checksum, no existing row, bucket or error changes, and all constraints still hold |
| `RelationLaws.AddObjectAgain` | src/libcore/db/object.test.cpp:20-53 | Adding content that was just added, under any id, returns the same object and changes nothing |
| `RelationLaws.UpdateErrorsExact` | share/fstore/db/api.sql:309-329 | A batch about distinct stored objects is accepted, leaves exactly its verdicts on the ids it mentions, and leaves every other entry alone |
| `RelationLaws.UpdateErrorsRefused` | share/fstore/db/api.sql:309-329 | A batch is refused exactly when two failing records share an id or a failing record names no stored object, and the first of these is reported first |
| `RelationLaws.UpdateErrorsOutcome` | share/fstore/db/api.sql:309-329 | Any accepted batch, with objects both cleared and failing in it too: every failing record is written, what is only cleared is gone, the rest is left alone |
| `Database.Database.CreateObject` | share/fstore/db/api.sql:60-90 | The insert that does nothing on conflict, and the lookup by checksum, NULL exactly when the id is taken and the checksum new |
| `Database.Database.AddObject` | share/fstore/db/api.sql:92-128 | The statements of the function, with rollback, produce the specified tables and return the object's id, or the specified error and the old tables |
| `Database.Database.RenameBucket` | share/fstore/db/api.sql:298-307 | An UPDATE: an unknown id is no error, a name held by another bucket is, and nothing else changes |
| `Database.Database.SumSizes` | share/fstore/db/api.sql:191 | sum(size) over any set of stored objects |
| `Database.Database.FetchStoreTotals` | share/fstore/db/api.sql:184-193 | The reported totals, or the failed cast; `Accounting.TotalsReported` and the lemmas after it fix each of the three numbers |
| `Database.Database.RemoveObjects` | share/fstore/db/api.sql:263-280 | One DELETE with its count and cast sum; when the cast fails nothing is deleted |
| `Database.Database.RemoveOrphanObjects` | share/fstore/db/api.sql:282-296 | Deletes and returns exactly the rows without links, with the cascades to links and error records |
| `Database.Database.Upsert` | share/fstore/db/api.sql:320-327 | The upsert loop succeeds exactly on distinct stored ids, writes the later table, and tells a repeated id from a dangling one |
| `Database.Database.UpdateObjectErrors` | share/fstore/db/api.sql:309-329 | The DELETE and the upsert together are the specified update, or an error that changes nothing |
| `Calls.ReachableConsistent` | share/fstore/db/data.sql:1-41 | Every table state reachable by any calls, failed or not, has unique names and checksums and intact references from links and error records |
| `Calls.EditKeeps` | share/fstore/db/api.sql:130-280 | No call on buckets or their contents touches an object row or an error record, and all keep the constraints |
| `Calls.RowsAreImmutable` | share/fstore/db/api.sql:60-296 | No call ever alters a stored row; a row disappears exactly when a prune finds it unreferenced |
| `Accounting.DoubleCounting` | share/fstore/db/api.sql:1-47 | The sum of the buckets' space equals the sum over objects of size times reference count |
| `Accounting.SharingBalance` | share/fstore/db/api.sql:1-193 | Buckets' space plus orphans' space equals the store's space plus every reference beyond an object's first |
| `Accounting.PrunedStoreFitsBuckets` | share/fstore/db/api.sql:184-296 | The store is at most its buckets and orphans together, and after a prune at most its buckets alone |
| `Accounting.TotalsReported` | share/fstore/db/api.sql:184-193 | Totals are reported exactly when the sum is below 2^63, and are all 0 for empty tables |
| `Accounting.CreateBucketTotals` | share/fstore/db/api.sql:184-193 | A new bucket raises the reported number of buckets by one, and no other total |
| `Accounting.RenameBucketTotals` | share/fstore/db/api.sql:184-193 | A rename changes no reported total |
| `Accounting.RemoveBucketTotals` | share/fstore/db/api.sql:184-193 | Dropping a stored bucket lowers the reported number of buckets by one, and no other total |
| `Accounting.UnlinkingTotals` | share/fstore/db/api.sql:184-193 | Removing objects from a bucket changes no reported total |
| `Accounting.AddObjectReported` | share/fstore/db/api.sql:184-193 | New content raises the reported objects by one and the reported space by its size, or the report by then fails; known content changes no total |
| `Accounting.PruneReported` | share/fstore/db/api.sql:184-193 | A prune lowers the reported objects and space by the number and the summed sizes of the rows it returns |
| `Accounting.TotalBoundsEverySum` | share/fstore/db/api.sql:1-11 | If the store's total fits in 64 bits, no bucket's sum and no removal's sum overflows its cast |
| `Accounting.RemoveObjectsBalance` | share/fstore/db/api.sql:263-280 | The bucket loses exactly the listed ids it held, the report is exactly the drop in its count and space, and no other bucket, row or error changes |
| `Accounting.BulkIsRepeatedSingle` | share/fstore/db/api.sql:240-280 | Bulk removal is single removal repeated, skipping ids not found, and fails exactly when the freed space does not fit |
| `Accounting.BulkIgnoresOrder` | src/libcore/db/object.test.cpp:134-172 | Lists with the same members, in any order and with any repeats, remove the same and report the same |
| `Accounting.RemoveObjectExact` | share/fstore/db/api.sql:240-261 | A single removal takes exactly that object out of exactly that bucket, or reports that it was not there |
| `Accounting.AddObjectSpace` | share/fstore/db/api.sql:92-128 | An add enlarges its bucket by the object's size unless it was there, and no other bucket |
| `Accounting.AddObjectTotals` | share/fstore/db/api.sql:60-90 | The store's count and size grow only by content it did not have |
| `Accounting.PruneExact` | share/fstore/db/api.sql:282-296 | Prune removes exactly the objects without references, with their error records, and no link or bucket |
| `Accounting.PruneTwice` | src/libcore/object_store.cpp:207-218 | A second prune returns nothing and changes nothing |
| `Accounting.PruneKeepsBuckets` | share/fstore/db/api.sql:1-11 | No bucket's contents or space change in a prune |
| `Accounting.PruneBalance` | src/fstore/commands/prune.cpp:25-38 | The totals fall by exactly the number and the summed sizes of the returned objects |
| `Accounting.RemoveBucketBalance` | share/fstore/db/data.sql:30-36 | Dropping a bucket loses its links only; an object becomes an orphan exactly if no other bucket held it |
| `BucketListing.CreateThenFetch` | share/fstore/db/api.sql:130-150 | Creation fails exactly when the id or the name is taken, and as a unique violation; the new bucket is found by name, empty, and no other lookup changes |
| `BucketListing.RenameThenFetch` | src/libcore/db/bucket.test.cpp:83-117 | A rename moves the bucket with its contents from the old name to the new, fails exactly when another bucket has the name, and changes no other lookup |
| `BucketListing.FetchedRow` | share/fstore/db/api.sql:1-11 | A fetched row is of the bucket with that name; its count is the number of the bucket's links, its space the sum of the sizes of what they link to |
| `BucketListing.FetchFails` | share/fstore/db/api.sql:141-150 | A fetch fails exactly when no bucket has the name, or its sum is 2^63 or more |
| `BucketListing.AddThenFetch` | share/fstore/db/api.sql:92-150 | An add raises the fetched count of its bucket by one and the fetched space by the size, unless the bucket held the object, and changes no other fetched row |
| `BucketListing.RemoveThenFetch` | share/fstore/db/api.sql:263-280 | A bulk removal lowers the fetched count and space of its bucket by exactly what it reports, and changes no other fetched row |
| `BucketListing.DropThenFetch` | share/fstore/db/api.sql:231-238 | A dropped bucket is not found, and no other lookup changes |
| `BucketListing.PruneThenFetch` | share/fstore/db/api.sql:282-296 | No lookup changes in a prune |
| `BucketListing.NamesStayTrimmed` | src/libcore/object_store.cpp:12-20 | The names the store gives are trimmed and non-empty, and every edit keeps all names so |
| `BucketListing.FoundByGivenNameExactly` | src/libcore/object_store.cpp:143-155 | A new bucket is found by the requested name exactly when that name was already trimmed |
| `BucketListing.PaddedNameIsLost` | src/libcore/object_store.cpp:143-155 | A bucket asked for as " a" is created and is not found as " a" |
| `BucketListing.FetchBucketsIsFetchEach` | share/fstore/db/api.sql:152-173 | The join ordered by ordinality has one possible result: each name fetched in turn, with repeats, without unknown names |
| `BucketListing.JoinRowsInOrder` | share/fstore/db/api.sql:163-171 | The rows of a join are the view's rows of its matches, one for one; the query fails exactly when one of these cannot be computed |
| `BucketListing.FetchedInOrder` | share/fstore/db/api.sql:152-173 | The fetched rows are, one for one and in the order of the names, what fetching each name that some bucket has gives |
| `BucketListing.ListingSucceeds` | share/fstore/db/api.sql:1-11 | If the store's total fits in 64 bits, no listing of buckets fails |
| `Filesystem.PathsNeverClash` | src/libcore/fs/filesystem.cpp:107-120 | Different ids never share a file, and an object's file is never a part's |
| `Filesystem.PathsSpelled` | src/libcore/fs/filesystem.cpp:107-120 | An object lies in two levels of directories named by the first two and the next two characters of its id, a part directly in its directory |
| `Filesystem.MimeSplits` | src/libcore/fs/filesystem.cpp:97-105 | The media type is what is before the first slash and the subtype what is behind it; without a slash both are the whole text |
| `Filesystem.ObjectViewStep` | src/libcore/fs/filesystem.cpp:107-124 | A change at an object's path shows as that object's entry and nowhere else, among objects and parts |
| `Filesystem.PartViewStep` | src/libcore/fs/filesystem.cpp:117-133 | A change at a part's path shows as that part's entry and nowhere else |
| `Filesystem.FileStore.GetPart` | src/libcore/fs/filesystem.cpp:58-64 | Append mode: an existing part keeps its bytes, a missing one is created empty |
| `Filesystem.FileStore.Write` | src/libcore/fs/part.cpp:10-14 | The bytes are appended to that part and no other file changes |
| `Filesystem.FileStore.MakeObject` | src/libcore/fs/filesystem.cpp:76-95 | The part becomes the object of the same id, replacing a file already there; a missing part is an error that changes nothing |
| `Filesystem.FileStore.Remove` | src/libcore/fs/filesystem.cpp:122-124 | Exactly that object's file is gone; a missing file is no error |
| `Store.CommitCases` | src/libcore/object_store.cpp:118-141 | Over all cases of part present, id known, checksum known and bucket present: when the commit succeeds, and otherwise with which error; then files and rows agree, the part is gone, every old row is unchanged and every old file keeps its checksum, and only the part's own id can be new |
| `Store.CommittedRow` | src/libcore/object_store.cpp:118-134 | A commit of new content adds exactly one row, under the part's id, with the part's checksum, size, media type and subtype, each in its field |
| `Store.ReachableStoreAgrees` | src/libcore/object_store.cpp:78-218 | After any run of complete operations, with any part ids and any exceptions in checks, exactly the rows have files, with the rows' checksums, and a check that can read them leaves no error; with an injective checksum sizes and types agree too |
| `Store.CheckFindsFaults` | src/libcore/object_store.cpp:78-95 | On a store whose files agree with its rows a check records exactly the objects whose reading threw, with the exceptions' texts, whatever was recorded before |
| `Store.CheckSaysExactly` | src/libcore/object_store.cpp:78-95 | In any store: what a check leaves on record about an object, word for word, for a missing file, another checksum, and exceptions with and without a text, and that otherwise nothing is left |
| `Store.CheckSaysAll` | src/libcore/object_store.cpp:41-95 | The same for all objects together; a check records stored objects only and changes nothing but the error table |
| `Store.CommitDescribes` | src/libcore/object_store.cpp:127-138 | Exactly when a commit keeps every row's size and type those of its file, for any checksum |
| `Store.CollisionBreaksSize` | src/libcore/object_store.cpp:136-138 | Committing other contents of the same checksum under a stored object's id leaves a row of the wrong size |
| `Store.CollisionRun` | src/libcore/object_store.cpp:136-138 | Such a run under any checksum that some contents share with the empty file |
| `Store.CollisionExample` | src/libcore/object_store.cpp:136-138 | A concrete store and run in which that happens, with a constant checksum |
| `ObjectStore.ObjectStore.CommitPart` | src/libcore/object_store.cpp:118-141 | Describe, add, then drop or rename the part: the specified commit, or an error with database, parts and objects unchanged |
| `ObjectStore.ObjectStore.Prune` | src/libcore/object_store.cpp:207-218 | Rows first, then a loop over files: the specified prune, returning the removed rows |
| `ObjectStore.ObjectStore.CreateBucket` | src/libcore/object_store.cpp:143-149 | The name is trimmed, a blank one refused; then exactly the database's outcome |
| `ObjectStore.ObjectStore.RenameBucket` | src/libcore/object_store.cpp:242-250 | The name is trimmed, a blank one refused; then exactly the database's outcome |
| `ObjectStore.ObjectStore.RemoveBucket` | src/libcore/object_store.cpp:220-224 | Exactly the database's outcome, files untouched |
| `ObjectStore.ObjectStore.RemoveObject` | src/libcore/object_store.cpp:226-232 | Unlinks the object and returns its row, or reports that it was not linked |
| `ObjectStore.ObjectStore.RemoveObjects` | src/libcore/object_store.cpp:234-240 | Exactly the database's outcome and report, files untouched |
| `ObjectStore.ObjectStore.GetObject` | src/libcore/object_store.cpp:186-192 | The row through the bucket, then the object's file, with both ways to fail |
| `ObjectStore.ObjectStore.Check` | src/libcore/object_store.cpp:41-95 | When the totals can be reported, whatever reading each file throws: afterwards an object is on record exactly if its file is missing ("file missing"), has another checksum ("hash mismatch") or threw a text, all else is unchanged, `total` is the object count, `completed()` has risen by it and `errors` by the size of the error table |
| `Checking.PassesExactly` | src/libcore/object_store.cpp:78-95 | An object passes exactly when its file has the row's checksum, or reading it throws an exception without text |
| `Checking.CheckEachIsFailures` | share/fstore/db/api.sql:309-329 | Checking object by object in any order leaves exactly the failing objects' messages, whatever was recorded before |
| `CheckPipeline.Partition` | src/libcore/object_store.cpp:51-116 | At every step the dispatched ids are the disjoint union of those in flight, in `in`, in `out` and flushed, and no list repeats an id |
| `CheckPipeline.FlushAccepted` | share/fstore/db/api.sql:320-327 | No flush ever breaks the upsert's rule against meeting an id twice, or names an unknown object |
| `CheckPipeline.StepInv` | src/libcore/object_store.cpp:63-116 | Every step, completions during fetches and flushes included, keeps the accounting, the truth of the records, the throttle bounds, the progress counts and the written errors |
| `CheckPipeline.NeverStuck` | src/libcore/object_store.cpp:63-73 | Until the check is done some step is possible, given that tasks in flight finish |
| `CheckPipeline.MaximalRunsFinish` | src/libcore/object_store.cpp:63-75 | A run that cannot go on has finished: no schedule deadlocks |
| `CheckPipeline.RunsAreShort` | src/libcore/object_store.cpp:63-73 | Every step lowers a measure on unfetched rows, queued rows, tasks in flight and a possible last empty fetch, so every schedule ends |
| `CheckPipeline.EveryRunIsSafe` | src/libcore/object_store.cpp:41-116 | In every state of every schedule: no flush has failed, tasks in flight and flush sizes are at most `batch_size + batch_size / 2`, `completed()` has risen by exactly the completions in the run, which are the dispatched tasks no longer in flight, and never exceeds the total, and the run is linear in the number of objects |
| `CheckPipeline.ThrottleIsTight` | src/libcore/object_store.cpp:47-73 | Both bounds are reached: with two batches of objects some schedule has `batch_size + batch_size / 2` tasks in flight at once, and then as many records in one flush |
| `CheckPipeline.PipelineRefinesSequentialCheck` | src/libcore/object_store.cpp:41-116 | Any schedule that ends leaves the tables of the sequential check: exactly the failures; progress has counted every object and every failure once |
| `Checker.CheckRun.FinishTask` | src/libcore/object_store.cpp:97-116 | A resuming task counts its outcome, appends its record to whatever list is now `in` and releases the counter: the machine's completion step |
| `Checker.CheckRun.Run` | src/libcore/object_store.cpp:60-75 | The loop ends under every choice of fetch sizes and completions, with the sequential check's tables and full progress |
| `Interleaving.NextInv` | src/libcore/object_store.cpp:118-218 | Each single step of any upload, download, edit or prune keeps, for every id, the relation between row, file, part, upload and removal queue |
| `Interleaving.NoContentIsLost` | src/libcore/object_store.cpp:118-141 | At every moment of every interleaving a row has its file, fully as described, or its own upload is between insert and rename and still holds the contents; no live row's file is queued for removal |
| `Interleaving.DownloadWorksExactly` | src/libcore/object_store.cpp:178-192 | For a lookup in one world and the open in any later one: the open succeeds exactly when by then the object's upload has finished and the object is still stored, or queued for removal, or was renamed too late; what is opened is what the looked-up row describes |
| `Interleaving.OnlyPruneSpoilsDownload` | src/libcore/object_store.cpp:186-218 | If the upload has finished at the lookup, the open fails exactly when the prune's removal of this file comes between the two |
| `Interleaving.DownloadTooEarly` | src/libcore/object_store.cpp:127-138 | A run whose download fails in the window between insert and rename, the object being listed throughout |
| `Interleaving.DownloadOvertaken` | src/libcore/object_store.cpp:186-218 | A run whose download finds a finished object and fails to open it, a prune having come between |
| `Interleaving.QuietStoreIsSound` | src/libcore/object_store.cpp:78-95 | With nothing in flight every row has its file and a check finds no error |
| `Interleaving.FilesMatchRowsExactly` | src/libcore/object_store.cpp:207-218 | With nothing in flight, files and rows match exactly if and only if no rename came after its row was pruned and its file's removal done |
| `Interleaving.FileWithoutRow` | src/libcore/object_store.cpp:136-138 | A run that leaves a file without a row |
| `Interleaving.StepsMakeCommit` | src/libcore/object_store.cpp:118-141 | A commit's steps with nothing in between are the complete commit, and are refused exactly when it is, with nothing changed |
| `Interleaving.StepsMakeDownload` | src/libcore/object_store.cpp:178-192 | A download's steps with nothing in between are the complete download, with both its failures |
| `Interleaving.StepsMakePrune` | src/libcore/object_store.cpp:207-218 | A prune's steps with nothing in between, files in any order, are the complete prune |
| `Interleaving.RunsAreAtomicRuns` | src/libcore/object_store.cpp:118-218 | Every interleaving has the effect of complete operations one after another, in the order of their database steps; with nothing in flight the store is what they leave if and only if no rename came too late, and otherwise differs by the files of late renames alone |
| `Interleaving.StepTakesEffect` | src/libcore/object_store.cpp:118-218 | Each step either is one complete operation on the store a world stands for, or is invisible there |
| `Transfer.ExactBodyIsTaken` | src/libserver/http/router.cpp:75-84 | A body of the announced length is taken whole, however it is cut |
| `Transfer.IndexIsOffsetExactly` | src/libfstore/object_store.cpp:41-47 | The 32-bit index is a chunk's true offset if and only if the offset is below 2 GiB |
| `Transfer.SmallIsWithinReach` | src/libfstore/object_store.cpp:41-47 | Objects of up to 2 GiB are placed correctly in any chunks |
| `Transfer.CopiedExactly` | src/libfstore/object_store.cpp:30-48 | With chunks of at most 2 GiB the buffer ends up with the object's bytes if every non-empty chunk starts below 2 GiB, and otherwise a copy leaves the buffer |
| `Transfer.TwoGigabytesAndOne` | src/libfstore/object_store.cpp:41-47 | An object of 2 GiB and one byte in two chunks: the index turns negative and the copy leaves the buffer |
| `Transfer.FourGigabytesAndOne` | src/libfstore/object_store.cpp:41-47 | After one chunk of 4 GiB the next overwrites the first byte of the buffer |
| `Transfer.ReadIntoBuffer` | src/libfstore/object_store.cpp:30-48 | Every chunk is copied to where the 32-bit index says, right or wrong, until a copy would leave the buffer; chunks within reach leave the object's bytes in order and the rest of the buffer unchanged |
| `Server.AddObject` | src/libserver/router.cpp:12-29 | The part receives all chunks in order after what it held, and is then committed under the requested or the generated id |
| `Server.ReceiveBody` | src/libserver/http/router.cpp:71-85 | The loop reads chunks up to the first that reaches the announced length, which is one determined point; `written` is the number of bytes appended, beyond the length only by less than the last chunk, and the part's new suffix is the chunks read |
| `Server.RoutesAgree` | src/libserver/http/router.cpp:71-90 | For a body of the announced length both upload routes leave the same part |
| `Server.UploadThenDownload` | src/libserver/router.cpp:12-40 | A committed upload is downloaded through its bucket, under the returned id, with the same bytes, behind those the part held before, and with a row that has their checksum, size, media type and subtype, whether the object was new or not |
| `Server.UploadThenBuffer` | src/libfstore/object_store.cpp:30-48 | A committed upload of at most 2 GiB, sent back in any chunks, is in the caller's buffer byte for byte |
| `Server.FreshUploadSucceeds` | src/libcore/object_store.cpp:127-134 | An upload under an id that no object has succeeds exactly when its bucket exists |
| `Server.DuplicateIsLinked` | src/libcore/object_store.cpp:136-137 | A part whose contents are stored becomes a link to the stored object; rows and object files stay as they are |
| `Server.SameBytesSameObject` | src/libcore/object_store.cpp:118-141 | The same bytes in any two chunkings, parts and buckets, under one part id or two, are one object |
| `Server.DownloadsAreStable` | src/libcore/object_store.cpp:118-240 | An object stays downloadable, unchanged, through any operations, prunes included, until one takes it out of the bucket |
| `Server.RemovalEndsDownload` | src/libcore/object_store.cpp:220-240 | Each operation that takes the object out of the bucket ends the download, as long as the store's total can be reported |
| `IdList.ReadIds` | src/libserver/http/router.cpp:54-59 | The parsing loop collects the ids of the trimmed non-blank lines in order, or refuses the list at a line that is no id |
| `IdList.RefusedExactly` | src/libserver/http/router.cpp:54-59 | The list is refused exactly when some non-blank line is no id; otherwise it has one id per such line, in order |
| `IdList.SplitJoin` | src/libfstore/detail/http/object_store.cpp:52-61 | Splitting on newlines undoes joining with newlines |
| `IdList.JoinConcat` | src/libfstore/detail/http/object_store.cpp:52-61 | Joining keeps the order, with one separator between neighbours |
| `IdList.NoiseIsIgnored` | src/libserver/http/router.cpp:54-59 | Blank lines and white space around ids do not change what is parsed |
| `IdList.CarriageReturnsAreIgnored` | src/libserver/http/router.cpp:54-59 | Lines that end in a carriage return are parsed alike |
| `IdList.ListRoundTrip` | src/libfstore/detail/http/object_store.cpp:52-61 | What the client lists is exactly what the server parses, for a UUID library that reads what it prints |

## Left out

- Sockets, TLS, HTTP routing, zipline framing, signals, configuration, the command line and its printing: input and output over libraries that are not part of this model.
- Archive, restore, migrate and init, and `filesystem::copy` and `filesystem::sync`: external programs and a database tool; `copy` is not used by the store.
- Timestamps, file permissions, logging, and the forwarding members of the connection, client and mock classes: nothing here depends on them.
- Crashes and disk errors between a database step and its file step, and exceptions out of the middle of a check: the code has no recovery for them, so the results are about runs whose begun steps finish. Exceptions while one object is being checked are modelled.
- Changes to the store during a check, and PostgreSQL's isolation inside one SQL function: each SQL function is one atomic step, and a check sees a fixed store.
- Two simultaneous uploads under one client-supplied id: `Interleaving` assumes that ids are never reused; `Store` allows any reuse, but runs operations one at a time.
- The order of rows: the cursor's order by id is any order in which each row appears once, and sets of rows returned by SQL are sets.
- The coroutine, counter, thread pool and portal libraries are not part of this model. Assumed of them: `await(n)` resumes with at most n tasks in flight, every task completes once and resumes as one step, and a portal yields each row once in batches and ends with its last rows or an empty batch after them.
- Row sizes are natural numbers: that a single file's size fits in 64 bits is taken from the file system. Sums are cast explicitly.
- Server.ReceiveBody: ends when the modelled chunks run out, where the original would wait for more, because the stream library is not part of this model; the contract says when that happens.
- Transfer.ReadIntoBuffer: stops at a copy that would leave the buffer, because the original's effect is undefined from there on.
- Filesystem.PathsNeverClash: speaks of the path below the home directory, because the home prefix is the same for all files.

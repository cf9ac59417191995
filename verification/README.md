# Verification of the file store

The repository keeps logical files in a parent-linked tree with a recycle bin. Files name
content by its SHA-256; content is stored once, counted, and placed on disk under a path of its
own. Uploads arrive in chunks, are claimed, merged, checked and committed under a namespace
quota. This project models those parts in Dafny and proves what they keep.

The services are classes over one mutable store (`Store.dfy`): the SQLite tables, the storage
and the quota reservations, whose port calls are its atomic steps. Each step consults a fault
schedule, an arbitrary set of step numbers that fail, so a contract speaks of every way the
store may fail; `Quiet(a, b)` says that no step from `a` up to `b` did. Protocols that run
concurrently are state machines over their steps. Specification functions over finite maps
carry the properties that relate several operations.

| file | what it models |
|---|---|
| Types, Forest, Tree, Refs, Sums, Content, Paths, Sorting | records, the parent relation, reference counts, sums, stored content, paths, string order |
| Store | tables, storage and reservations as atomic steps |
| Deletion | deletion with an undo log and deferred object deletes |
| Trash, RecycleBin | trash, restore, purge and the search through the bin |
| Moves, Copies | moving and renaming a node, copying directories |
| Ingest, Reads | instant upload, commit, the consistency scan; downloads |
| DirTrees, Submissions, SafePaths, Layouts, Walks | manifest to tree, its path filter, readable paths, tree to manifest |
| Overwrites | two ways to lose content while every call succeeds |
| Chunks, Uploads, Sessions, Finalize | chunk lists, split and merge, offset-checked appends, finalize |
| Finalizers, Quota, InFlight | interleavings of finalizers, of reservations, of requests and workers |
| TokenBuckets, PasswordLimits | the request limiter and the share password limiter |
| Janitor | the retention sweep |
| Runs, Operations | whole runs of all tree and content operations, and the service methods as steps of such runs |

`hash` is an arbitrary function of the bytes; nothing is assumed about it. Identifiers come from
a counter. Times are integers (nanoseconds), in the token bucket reals (seconds); token counts
are reals. Sizes are mathematical integers, except in the chunk check, where the int64 sum and
the truncating division are written out.

## Where the code does less than its comments say

- A decrement is an UPDATE followed by a SELECT. If the SELECT fails the count has been lowered
  although the caller sees an error and logs no undo step. A rolled-back deletion is exact except
  for that one count (`Deletion.Deleter.DeleteDirDeferred`, error `RefCountUnread`).
- A purge restores the tree before deleting it. A purge that fails leaves the tree active, not
  trashed; a purge of a single file may report an error after its metadata is gone.
- Restoring below a trashed parent leaves an active row under a trashed one (exactly then), and
  from such a table an accepted move can make a cycle (`Moves.HiddenAncestor`).
- Re-acquiring content whose row was kept at zero after its bytes were deleted adds a file nobody
  can read (`Overwrites.DeleteThenLink`); the condition `Ingest.Lost` is exact.
- Copying a directory into itself or its own subtree never ends, exactly then (`Copies.ItemEndsIff`); an
  increment that fails after the insert leaves the count below its rows.
- Moving content to its readable path overwrites whatever lies there. Two directories of the same
  name with the same relative path for different content share that path, so the second submission
  destroys the first content (`Overwrites.SubmitTwice`); a move that is not recorded leaves
  content where its row does not say (`Submissions.NextAtHand`).
- After a chunk shorter than the chunk size no offset is accepted any more, while the tus resumable
  upload protocol 1.0.0 lets a PATCH carry any number of bytes; an empty PATCH on an upload of
  length zero makes it impossible to finalize. A finalize that fails after its chunks were
  accepted takes their parts away, and the session stays unusable.
- Restore and copy reserve nothing, and aborting a session between the quota guard of its finalize
  and the insert gives its reservation away, so the quota can be exceeded by each of the three
  (`Quota.AbortOvershoots`); an abort before the guard does no harm (`Quota.RunWithin`).
- The immediate deletion of a file removes its row first; if lowering the count then fails, the
  count stays too high for good.
- Renaming a directory leaves the paths of what is below it as they were (`Walks.RenamedShown`).
- The range header `bytes=0-9223372036854775807` overflows to a negative length, and the length
  announced is then not the length sent (`Reads.HeaderOverflows`, `Reads.AnnouncedIffSent`).
- The early returns between taking and submitting a chunk do not give the semaphore back.
- Forgetting an idle key is visible when its bucket does not refill within the maximum age
  (`TokenBuckets.SweepSeen`).
- Stored deletion times are whole seconds, so a purge may come up to a second early.

## Model

| member | source | states |
|---|---|---|
| Runs.EveryRun | internal/domain/upload.go:692-1153 | From an empty store, after any sequence of trash, restore, move, rename, copy, directory, filing, instant upload, commit, delete, purge and relocation steps, including failed commits, failed purges, references that leaked and counts that were kept for a row that went: no row is its own ancestor, no active row is under a trashed one, a trashed row is no younger than its trashed parent, everything any row names (trashed or not) is on disk under that hash and size, and if every failure was compensated the consistency scan finds no drift |
| Runs.RunGood | internal/domain/upload.go:692-1153 | The same from any good state; exact counts stay exact over every run whose failures were compensated |
| Runs.StepGood | internal/domain/upload.go:692-1153 | Every single operation keeps the tree, the bin order, the counts and the stored content; exact counts stay exact unless a reference leaked, a count was kept for a row that went, or a commit failed and was not cleaned up |
| Operations.Trash | internal/domain/trash.go:11-41 | What Trash does on every outcome is one trash step of such a run |
| Operations.Restore | internal/domain/trash.go:49-64 | So is a restore of an item whose parent is missing or active, also when it stops half way; if it restored nothing it is idle |
| Operations.MoveFile | internal/domain/upload.go:861-911 | An accepted move is a move step; a refused or failed one is idle |
| Operations.Rename | internal/domain/upload.go:847-859 | An accepted rename is a rename step; a refused or failed one is idle |
| Operations.Purge | internal/domain/trash.go:68-99 | A purge that commits is a removal step; one that fails and is rolled back is a restore step of the rows it had restored, for an item whose parent is missing or active, unless a count was lowered that could not be read back |
| Operations.DeleteFileNow | internal/domain/upload.go:933-955 | An immediate deletion is a removal, a row dropped with its count kept, or idle, whatever fails |
| Operations.CheckExists | internal/domain/upload.go:72-126 | An instant upload of content that is there, or unknown, is a link step, a leaked reference or idle, whatever fails; a reference leaks only when a step failed |
| Operations.Commit | internal/domain/finalize.go:101-186 | A commit is a commit step or a failed-commit step, whatever fails in it; with nothing failing the step is exact, also when the commit is refused |
| Operations.Finalize | internal/domain/upload.go:534-624 | Finalizing a session is an idle step, in which identifiers may be issued, and then a commit of the finalized content, a failed commit of it, or nothing, whatever fails, unless that content is known and its bytes are gone; with nothing failing the run is exact |
| Operations.CopyRecord | internal/domain/batch.go:281-303 | One row of a copy is a link step, a row step or idle unless the row was inserted and its increment failed |
| Operations.MakeDir | internal/domain/upload.go:698-762 | A directory of a submission, the root or one below it, is a row step or idle |
| Operations.PlaceItem | internal/domain/upload.go:765-801 | An item of a submission is a filing step followed by a relocation step, each of them idle if it failed, when no other content lies at its readable path and the move was recorded |
| Operations.Relocate | internal/domain/upload.go:783-800 | A move of content to a path of no other content is a relocation step, or idle, unless it was not recorded |
| Deletion.Deleter.DeleteDirDeferred | internal/domain/upload.go:1051-1064 | Tree-atomic deletion: on success exactly the subtree is gone, every surplus of a count over its rows is kept, each object whose count fell to zero is handed to the storage once and nothing a surviving row names is deleted; on failure no object was deleted, no row outside the tree was touched whatever else fails, and if the rollback itself meets no failure tables are as before up to a count that was lowered but could not be read back |
| Deletion.Deleter.DeleteDirDeferredWithUndo | internal/domain/upload.go:1066-1088 | At any depth and after any failing step, replaying the undo log from its newest entry gives the rows from before the walk, and, if the counts covered the rows, the counts too; on success the rows removed are the active subtree |
| Deletion.Deleter.DeleteFileWithUndoDeferred | internal/domain/upload.go:1090-1110 | One file: the log plus the new tables replay to the old tables, and the outcome is decided by which of its steps fails |
| Deletion.Deleter.RollbackDeleteUndo | internal/domain/upload.go:1112-1128 | The rollback under an arbitrary fault schedule, newest entry first, failed steps skipped |
| Deletion.Deleter.RollbackFailed | internal/domain/upload.go:1051-1064 | A rollback after a failed deletion brings back only rows of the starting table, takes none away, and is exact when it meets no failure |
| Deletion.ReplayFiles | internal/domain/upload.go:1112-1128 | The rows a rollback brings back do not depend on the counts |
| Deletion.Deleter.PurgeFile | internal/domain/trash.go:86-97 | Purge of a single file: atomic in its metadata; an object that cannot be deleted is reported although the metadata is already committed |
| Deletion.Deleter.DeleteFileNow | internal/domain/upload.go:933-955 | Immediate deletion of a file: wherever it stops, no count is too low and only the object of the last reference is deleted; a count stays too high exactly when the row went and lowering the count failed; with nothing failing the last reference takes the object with it |
| Deletion.UndoneDecr | internal/adapters/metadata/sqlite.go:217-239 | Undoing a decrement is exact if and only if the count was above zero, because of the clamp at zero |
| Deletion.UndoneDelete | internal/domain/upload.go:1112-1128 | Undoing a row removal is exact |
| Deletion.ReplayIncr | internal/domain/upload.go:1112-1128 | Raising one count commutes with the whole rollback, so a decrement that was applied but reported as failed shows as exactly that one count |
| Deletion.QuietReplay | internal/domain/upload.go:1112-1128 | A rollback in which nothing fails is the replay of the whole log |
| Deletion.ReplayStaysWithin | internal/domain/upload.go:1112-1128 | However many rollback steps fail, only rows of the starting table come back |
| Deletion.SlackOnlyFalls | internal/domain/upload.go:1066-1110 | A deletion that keeps every surplus lowers counts only |
| Refs.LoweredByMultiplicity | internal/domain/trash.go:68-99 | A deletion or purge that keeps every surplus has lowered each count by the number of removed rows naming the hash |
| Refs.CountSplit | internal/lifecycle/reaper.go:299-320 | Removing a set of rows lowers each hash's row count by its multiplicity in the set |
| Refs.RemoveKeepsSlack | internal/domain/upload.go:1090-1110 | Removing a row and lowering its hash's count keeps every surplus, and the count was above zero |
| Refs.InsertKeepsSlack | internal/domain/batch.go:223-246 | Inserting a row and raising its hash's count keeps every surplus |
| Content.FreedKeepsStored | internal/domain/upload.go:1051-1064 | Deleting objects of zero-count blobs only leaves every referenced content in place |
| Content.NamedContentIsStored | internal/domain/download.go:50-98 | Whatever a row names, trashed or not, has a blob whose path holds bytes with that hash |
| Reads.FileServer.GetFile | internal/domain/download.go:50-101 | A download is answered from the offset asked for, with the bytes up to the end asked for or, if that is open or too far, up to the end of the file, and announced so; it refuses with not found, forbidden, corrupted or invalid exactly as row, blob, range and disk say |
| Reads.HeaderAnswered | internal/transport/handler_util.go:17-44 | A range header that starts inside the file is answered with the bytes from the first to the last position it names, or to the end of the file |
| Reads.Served | internal/domain/download.go:50-101 | While counts cover rows and referenced content is on disk, a file that names content is refused for its range only |
| Reads.ServedBytes | internal/domain/download.go:72-90 | A range that is not negative is read as a slice of the stored content within its size, and a whole download has the row's hash |
| Reads.AnnouncedIffSent | internal/domain/download.go:72-99 | The length announced is the number of bytes sent if and only if the requested length is not negative |
| Reads.HeaderOverflows | internal/transport/handler_util.go:17-44 | A range header gives a negative length, by int64 overflow, if and only if it asks for positions 0 to the largest int64 |
| Reads.RangesMeet | internal/domain/download.go:72-90 | Two ranges that meet give the bytes of their union |
| RecycleBins.TrashTreeByID | internal/domain/trash.go:101-127 | The breadth-first search returns exactly the trashed rows below the root in the bin, each once, parents before children |
| RecycleBins.RecycleBin.TrashTree | internal/domain/trash.go:25-41 | Post-order trashing: wherever it stops, the rows trashed are closed under active children; on success they are the whole active subtree |
| RecycleBins.RecycleBin.Trash | internal/domain/trash.go:11-23 | Trash keeps the table sound on every outcome, including after any failing step: the rows it reached carry the whole second of its clock and nothing else changed; it answers not found, forbidden or success exactly as the row says |
| RecycleBins.RecycleBin.RestoreFromTrash | internal/domain/trash.go:49-64 | Restore clears the deletion time of exactly the rows the search finds and changes nothing else; it succeeds exactly for a row of the namespace in the bin; the table stays sound if and only if nothing was restored or the item's parent is missing or active |
| RecycleBins.RecycleBin.PurgeFromTrash | internal/domain/trash.go:68-99 | A committed purge removes exactly the set the search computes, keeps every surplus, deletes each object whose count fell to zero once and no other; a failed one deletes no object, touches no row outside the tree, and leaves the rows restored for it active; with nothing failing it commits exactly for a row of the namespace in the bin |
| TrashTables.SearchIsWalk | internal/domain/trash.go:78-84 | The search through trashed rows and the later walk through active children visit the same rows |
| TrashTables.TrashThenRestore | internal/domain/trash.go:11-64 | Trash then restore reactivates the whole subtree, and is the identity if and only if nothing below the item was in the bin before |
| TrashTables.TrashedSubtree | internal/domain/trash.go:11-64 | After trashing, the bin's search finds the rows just trashed and those that were there already |
| TrashTables.MarkedSound | internal/domain/trash.go:25-41 | Trashing any set closed under active children keeps the table sound, with a clock that does not run backwards |
| TrashTables.UnmarkedSound | internal/domain/trash.go:58-62 | Restoring any set closed towards its top keeps the table sound if and only if the top's parent is missing or active |
| Moves.Mover.MoveFile | internal/domain/upload.go:861-911 | Accepts exactly a row of the namespace whose target, if any, is an active directory of the namespace and not reached from it through active rows; the ancestor walk terminates; an accepted move changes one parent, keeps the table well formed if and only if the target is not below the node in the whole table, and keeps a sound table sound |
| Moves.Mover.Rename | internal/domain/upload.go:847-859 | Changes one row's name and path, keeps the table sound, and refuses with not found or forbidden exactly as the row says |
| Walks.RenamedShown | internal/domain/upload.go:847-859 | A rename changes nothing of what a manifest shows of any other row with a path of its own: what is below a renamed directory keeps its old path |
| Moves.Mover.RefuseBelow | internal/domain/upload.go:892-907 | The walk refuses exactly when the moved node is an ancestor-or-self of the target through active rows |
| Moves.MovedWellFormed | internal/domain/upload.go:892-910 | Relinking a node makes a cycle if and only if the new parent is below it |
| Moves.AncestorsLive | internal/domain/upload.go:895-907 | In a table without active rows under trashed ones, the walk over active rows sees every ancestor |
| Moves.HiddenAncestor | internal/domain/upload.go:895-907 | A concrete table, with an active row under a trashed one, in which an accepted move makes a cycle |
| Ingest.Uploader.CheckExists | internal/domain/upload.go:72-126 | Instant upload: on a hit one row with the hash and the stored size of the content, under the name given, and one reference; the namespace then uses that size more, no other one changes, and no more than the quota is in use; nothing on a miss or failure apart from a reference whose return failed; no count gets too low and exact counts stay exact; other reservations are untouched; with nothing failing it links known content for which there is room, answers nothing for unknown content, and otherwise invalid or over quota, and its own reservation is gone |
| Ingest.Uploader.Grown | internal/domain/upload.go:195-213 | A row let in by the guard uses its bytes in its namespace and in no other, and leaves no more than the quota in use |
| Ingest.Uploader.LinkExisting | internal/domain/upload.go:99-125 | Reference, row, and on a failed insert the reference back: all or nothing unless the compensation fails |
| Ingest.RefHold.Rollback | internal/domain/refcount.go:15-28 | The undo closure gives the reference back once; later calls do nothing |
| Ingest.Uploader.ReserveNamespace | internal/domain/upload.go:195-206 | Reserves only under a quota and for a positive size; a refusal changes nothing |
| Ingest.Uploader.CommitStream | internal/domain/finalize.go:101-186 | Commit: on success one row with the hash of the bytes and their number as its size, called by the last name of its path, one reference and one physical copy at the blob's path; the namespace uses that many bytes more, no other one changes, and no more than the quota is in use; on failure no row, and no leftover but a fresh blob row kept at zero with its copy, unless a step other than the one that failed it failed too; with nothing failing it succeeds exactly when the declared hash matches and there is room |
| Ingest.Uploader.UploadUses | internal/domain/finalize.go:163-181 | What the row of an upload says, and that inserting it uses exactly its bytes |
| Paths.BaseIsLastName | internal/domain/finalize.go:163-172 | The name given to a row is the last name of its path, slashes at the end aside |
| Ingest.CommitKeepsCounts | internal/domain/finalize.go:129-181 | Whatever a commit leaves, no count is too low; a success, and a failure that was cleaned up, keep exact counts exact |
| Ingest.CleanFailureConserves | internal/domain/finalize.go:129-181 | A failed commit whose compensation worked leaves every count as exact as it was |
| Ingest.CommitStoresContent | internal/domain/finalize.go:129-181 | After a commit every referenced content is stored if and only if the blob row was not one kept at zero whose bytes are gone |
| Ingest.IncrStored | internal/domain/upload.go:99-104 | Taking a reference keeps every referenced content stored if and only if the content is still there |
| Ingest.Scanner.ScanRefCount | internal/lifecycle/reaper.go:299-320 | The scan counts exactly the blobs whose count differs from the rows naming them, and never more when queries fail |
| Ingest.NoDriftMeansConserved | internal/lifecycle/reaper.go:299-320 | Zero drift and conservation of counts are the same thing |
| Copies.Copier.BatchCopy | internal/domain/batch.go:172-254 | Begins for an active directory of the namespace as target, or none, and otherwise answers not found, forbidden or invalid; terminates for targets outside the copied subtrees although it inserts into the table it lists; old rows are untouched; every new row has the name, path and kind of an old one under exactly one item, for files its hash and size, the caller's namespace, and lies below the image of its parent; with nothing failing each eligible item is copied with all that was below it before the batch; each count has risen by the number of copied rows naming the hash, less the failed increments, and the bytes in use by the sizes of the copied files |
| Copies.BatchStep | internal/domain/batch.go:193-247 | One more item: what it copies is what was below it before the batch, whatever was copied before, and its images are new |
| CopyTables.BesideElsewhere | internal/domain/batch.go:193-247 | Rows added at the target, or below such rows, change no subtree the target is not in |
| Copies.Copier.CopyItem | internal/domain/batch.go:193-247 | One item: its new rows are an image of the active tree below it, row for row, in name, path, kind, hash and size |
| Copies.Copier.CopyDirChildren | internal/domain/batch.go:257-306 | The recursive copy maps the active subtree one to one onto new rows with the same name, path, hash, size and kind, each under the image of its parent |
| Copies.CopyRaisesCounts | internal/domain/batch.go:257-306 | A copy raises the number of rows naming a hash by the number of copied files that name it |
| Copies.CopyUses | internal/domain/batch.go:257-306 | A copy of what is below a directory adds the bytes of its files to the namespace copied to, and nothing elsewhere |
| Copies.ItemUses | internal/domain/batch.go:193-247 | So does the copy of an item of a batch |
| Copies.MissedIsDrift | internal/domain/batch.go:239-244 | Increments that failed after the insert are exactly what leaves counts below their rows |
| CopyTables.CopyBelowItselfDiverges | internal/domain/batch.go:257-306 | The recursive copy of a directory to a directory strictly below it has no finite run |
| Copies.ItemEndsIff | internal/domain/batch.go:193-247 | For a directory named in a batch: after its own row has been copied to the target the walk below it has a run that ends if and only if the target is not the directory itself or below it |
| Copies.CopyIntoItselfDiverges | internal/domain/batch.go:193-247 | A batch that copies a directory into itself or below itself never finishes, for any depth and any listing order |
| Submissions.Submitter.SubmitDir | internal/domain/upload.go:692-805 | Accepts exactly the valid manifests and otherwise gives the reason of the first entry refused; builds one directory per path prefix, parents first; files every item; whatever fails, the table stays sound and no namespace uses a byte more or less; for any set of contents, if no readable path is another one's path, all of them stay on disk under every fault schedule: where their row says or, after a move that was not recorded, at the readable path of an item; with nothing failing where their row says, and every item's content at a readable path |
| Submissions.Submitter.ValidateDirManifest | internal/domain/upload.go:636-668 | Checks the whole manifest before anything changes, accepts exactly the valid ones and otherwise gives the reason of the first entry refused |
| Submissions.NoneRefused | internal/domain/upload.go:636-668 | No entry is refused if and only if each is acceptable by itself and no two share a path or a file |
| SafePaths.ValidMeans | internal/domain/upload.go:636-668 | The valid manifests: few enough entries, no path or file twice, each for an active file of the namespace, under a path that stays inside its directory as it stands |
| SafePaths.SafePathIff | internal/domain/upload.go:670-680 | A path is accepted if and only if it holds no backslash or zero byte and, followed name by name with .. going up and . and an empty name staying, leads to itself |
| SafePaths.NoDetour | internal/domain/upload.go:670-680 | No path with .., . or an empty name between slashes, in front or at the end is accepted |
| SafePaths.JoinSplit | internal/domain/upload.go:670-680 | Joining the names of a path with slashes gives the path, and no name holds a slash |
| SafePaths.SplitJoin | internal/domain/upload.go:682-688 | Splitting joined names that hold no slash gives the names |
| SafePaths.ReadableParts | internal/domain/upload.go:783-788 | A readable path is the namespace, the filtered name of the submission and each filtered name of the item's path |
| SafePaths.ReadableSharedIff | internal/domain/upload.go:783-788 | Two items submitted in one namespace share a readable path if and only if the filtered names of their submissions and of their paths are the same |
| Submissions.Submitter.MakeDirs | internal/domain/upload.go:737-762 | Each needed directory is made once, under the row of its parent directory |
| Submissions.BuiltDirs | internal/domain/upload.go:698-762 | The rows made: directories of the namespace without content, each called by the last name of its path and lying in the directory of the rest, the root under the submission's name at the top |
| Submissions.BuiltUses | internal/domain/upload.go:698-781 | A submission, complete or not, uses no bytes: filed items keep their size and namespace, new directories have none |
| Submissions.SortedParentsFirst | internal/domain/upload.go:730-762 | Sorting the prefixes puts every directory after its parent, so the fallback to the root is never taken |
| Submissions.Submitter.PlaceItems | internal/domain/upload.go:765-801 | Every item ends under the directory of its path; blobs change only their path, and only to a readable path of an item with that content; content is kept and delivered as for SubmitDir |
| Submissions.Submitter.PlaceItem | internal/domain/upload.go:765-801 | One item: its row is filed or not, and its content moved as far as the move got; with nothing failing both are done |
| Submissions.NextAtHand | internal/domain/upload.go:783-800 | With clear readable paths no content leaves the disk, however far a move gets: what its row no longer finds lies at the readable path of an item |
| Submissions.ReferencedStored | internal/domain/upload.go:783-800 | For the set of referenced contents, what a submission keeps is the store's invariant that all referenced content is on disk |
| DirTrees.RoundTrip | internal/domain/download.go:122-163 | Reading the manifest of a submitted directory gives back exactly the submitted paths and files, in strictly increasing path order, with the sizes and hashes the files always had |
| DirTrees.BuiltFiles | internal/domain/upload.go:765-801 | The files below the new root are exactly the manifest's |
| DirTrees.ParentFirst | internal/domain/upload.go:720-746 | The parent of a needed directory is needed too, or the root, and sorts strictly before it |
| DirTrees.NextItemFiled | internal/domain/upload.go:765-781 | Filing an item changes that row only and keeps the table sound |
| Walks.Downloads.GetDirManifest | internal/domain/download.go:122-163 | Lists every active file below the directory once, under its own path or the one built from its place, sorted by path, with the total of their sizes; refuses with not found, invalid or forbidden exactly as the row says |
| Walks.Walker.WalkDir | internal/domain/download.go:215-244 | Appends exactly the active files below the directory, each once, under the path shown for it |
| Walks.Downloads.GetDirTotalSize | internal/domain/download.go:341-359 | The total of the active files that hang below the active children of any identifier, whether or not it names a row |
| Walks.HangingBelow | internal/domain/download.go:341-359 | For a directory of the table this is the total the manifest shows |
| Walks.SumOfEnumeration | internal/domain/download.go:143-150 | Summing a listing of a set of files gives the total over the set, whatever the order |
| Walks.ShownBelow | internal/domain/download.go:215-244 | A row with a path of its own is shown under it, any other under its name below what its directory is shown as |
| Layouts.Relocate | internal/domain/layout.go:38-54 | Open, write, delete, then record the path: the five outcomes by how far it got |
| Layouts.MoveKeepsContent | internal/domain/upload.go:783-800 | A move keeps every referenced content stored if and only if it did nothing, or the destination belonged to no other referenced content and the path was recorded once the old copy was gone |
| Layouts.MoveKeepsHeld | internal/domain/upload.go:783-800 | Of any set of contents on disk a recorded or unfinished move loses none if no other one lies at the destination |
| Overwrites.DeleteThenLink | internal/domain/upload.go:72-126 | Without a quota, in every store with exact counts in which a content has one reference: deleting its file and uploading the content again by its hash both succeed, counts stay exact, and the new file's content is not on disk |
| Overwrites.UploadDeleteLink | internal/domain/upload.go:72-126 | A run from an empty store that ends there: upload, delete, upload by hash |
| Overwrites.SubmitTwice | internal/domain/upload.go:783-800 | In every store with two files whose contents are on disk, submitting one after the other under equal namespace, name and path succeeds twice and leaves the first content on disk if and only if it is the second's; the first row still names it |
| Overwrites.SubmitOne | internal/domain/upload.go:692-805 | A submission of one file delivers it and leaves alone every content that is not at its readable path |
| Sessions.Appender.AppendChunkAtOffset | internal/domain/upload.go:370-389 | Whatever fails, the stream keeps what it had or grows by the whole body; with nothing failing it grows exactly for an active session of the caller, the current offset, a multiple of the chunk size, a body within bounds and a matching checksum; the shape of the session is kept; other requests get the reason, and the current offset if that is what they missed |
| Sessions.Appender.AppendAll | internal/domain/upload.go:370-389 | Over any sequential run of accepted and rejected requests the stream is the recorded bodies in order, and after a recorded body that is shorter than the chunk size and not empty no request is recorded any more |
| Sessions.Appender.AppendChunkForSession | internal/domain/upload.go:229-283 | Recorded completely or not at all; other chunks and parts are untouched; the error for each refusal |
| Sessions.MaxBytesMeans | internal/domain/upload.go:229-283 | A body fits one request if and only if it is within the memory bound, 64 MiB and the chunk size, if there is one |
| Sessions.Appender.ProcessChunkBytes | internal/domain/upload.go:287-309 | Write, compare, record: a refused chunk leaves the records as they were |
| Sessions.Appender.GetOffset | internal/domain/upload.go:392-410 | The sum of the recorded sizes |
| Uploads.AppendStacks | internal/adapters/metadata/redis.go:146-173 | An accepted append keeps indexes 0..k-1, all but the last chunk full, recomputed offset and counter equal, and appends exactly the body to the stream |
| Uploads.NextIndex | internal/domain/upload.go:375-385 | A current offset that is a multiple of the chunk size names the next index, or a trailing empty chunk |
| Uploads.ShortChunkSticks | internal/domain/upload.go:375-384 | Some offset is both the current one and a multiple of the chunk size if and only if there is no chunk yet or the last one is full or empty |
| Uploads.StackedAccepts | internal/domain/upload.go:435-471 | Such an upload can be finalized if and only if all bytes are there, no empty chunk trails them and the rounded-up length fits int64 |
| Uploads.SessionKeys.UpdateOffset | internal/adapters/metadata/redis.go:146-173 | Replaces the chunk and moves the counter by the difference of the sizes |
| Uploads.SessionKeys.ListChunks | internal/adapters/metadata/redis.go:176-201 | Every recorded chunk once, in some order |
| Uploads.ListedTotal | internal/domain/upload.go:404-409 | The sum over the list is the recorded total, whatever the order |
| Uploads.WholeListed | internal/domain/upload.go:435-471 | The check of the listed chunks depends on what is recorded only, not on the order of the list |
| Uploads.SessionKeys.ClaimSessionFinalizing | internal/adapters/metadata/redis.go:84-127 | One atomic step from active to finalizing; anything else is refused and changes nothing |
| Chunks.ValidateUploadedChunks | internal/domain/upload.go:435-471 | Sorts the caller's slice and accepts exactly: no chunks for length zero, else indexes 0..n-1 in any order with sizes in range, and under enforcement all full but the last, which ends at the length; near the top of int64 the rounded-up sum wraps and nothing is accepted |
| Chunks.CountsMatch | internal/domain/upload.go:457-460 | The int64 ceiling division is the mathematical one unless the sum overflows, and then it is not positive |
| Chunks.TilesSorted | internal/domain/upload.go:448-470 | The order-free description of an acceptable list and the index-by-index checks on the sorted list agree |
| Chunks.TilesLength | internal/domain/finalize.go:44-56 | Parts of an accepted list merge to exactly the declared length |
| Chunks.SplitBytes | sdk/go/fileupload/upload.go:219-249 | The client's slices are the consecutive pieces of the data, as many as the rounded-up quotient |
| Chunks.SplitThenMerge | sdk/go/fileupload/upload.go:219-249 | Split and merge undo each other: for all data, chunk sizes and arrival orders the list is accepted and the merge is the data |
| Finalize.Finalizer.MergeChunks | internal/domain/finalize.go:25-64 | The parts in index order, whatever order the list is in |
| Finalize.Finalizer.Finalize | internal/domain/upload.go:534-624 | A success commits the merge of the recorded parts, decompressed if compressed, under the declared hash: one row under the session's name with the content's hash and size, one reference, one copy at a path that was nobody's; the namespace uses the content's bytes more, no other one changes, and no more than the quota is in use; a failure leaves what a failed commit of that content leaves, and before the claim nothing; afterwards the session is gone or finalizing, never active; other reservations are untouched; with nothing failing it succeeds exactly for an active session whose chunks are whole, whose parts are there and decompress to content with the declared hash, and for which there is room, and the session's own reservation is gone; the parts of whole chunks are gone whether or not the upload was accepted, and no others |
| Finalize.Finalizer.CommittedIsRead | internal/domain/upload.go:534-624 | The content of a finalized row is on disk under its hash, and new content is the very bytes that were committed, unless the content was known and its bytes were gone |
| Finalize.Finalizer.CommittedUses | internal/domain/upload.go:534-624 | A finalized row uses the bytes of its content in the session's namespace and leaves no more than the quota in use, unless the session's reservation is under another namespace |
| Finalize.FlatPathsApart | internal/domain/upload.go:600-604 | Sessions whose identifiers have the same length never write to the same path, whatever their files are called |
| Finalize.FinishedIsStream | internal/domain/upload.go:534-624 | End to end: a finalized uncompressed upload is the accepted bodies in order, of the declared length, under the declared hash |
| Finalizers.FinalizersAgree | internal/domain/finalize.go:129-181 | For every interleaving of finalizers with any steps failing: no session is finalized twice, each count is the rows naming the hash plus the rollbacks that failed, exactly the blob's own copy of a content is on disk apart from copies whose deletion failed, and everything named is stored |
| Finalizers.Completes | internal/domain/finalize.go:129-181 | A finalizer that is not disturbed ends with its row inserted, its content counted and no copy but the blob's |
| Finalizers.RunSafe | internal/domain/finalize.go:129-181 | The three invariants hold after every prefix of every interleaving |
| Finalizers.ClaimClaim | internal/adapters/metadata/redis.go:84-127 | Of several finalizers that saw the session active only one gets it: the first write moves the version the others watch |
| Finalizers.CountStep | internal/adapters/metadata/sqlite.go:164-193 | Every step keeps: count equals rows plus references held by finalizers in between |
| Finalizers.CopyStep | internal/domain/finalize.go:129-161 | Every step keeps: a finalizer's path holds something only while its copy is in use, when its deletion failed, or when it is the blob's own path |
| Quota.RunSafe | internal/domain/upload.go:195-213 | Over every interleaving of reserving, adjusting, inserting, failing, releasing and removing, used bytes plus what operations may still insert never exceed the quota |
| Quota.RunWithin | internal/domain/upload.go:1131-1153 | With aborts of claimed sessions added, used bytes still never exceed the quota over any interleaving, as long as no abort falls between the guard and the insert of an operation with bytes to insert |
| Quota.HoldSafe | internal/adapters/metadata/sqlite.go:40-76 | A granted reservation keeps that bound although committed files and their reservations are counted twice |
| Quota.InsertSafe | internal/domain/finalize.go:163-181 | Inserting what was reserved keeps it while the reservation is still there |
| Quota.RestoreWithin | internal/domain/trash.go:49-64 | Restoring stays within the bound if and only if there happens to be room |
| Quota.CopyWithin | internal/domain/batch.go:223-246 | So does copying |
| Quota.AbortOvershoots | internal/domain/upload.go:1131-1153 | An abort between a finalize's guard and its insert lets two uploads of the full quota into one namespace, for every quota |
| Quota.AbortBusySafe | internal/domain/upload.go:1131-1153 | Aborting a claimed session keeps the promised bytes covered if and only if there is no quota, nothing to insert, or, counting only operations past their guard, the finalize has not passed it |
| Quota.ReservesIff | internal/adapters/metadata/sqlite.go:40-76 | A first reservation is granted if and only if it fits beside everything used and held in its namespace |
| Quota.UploadGoesThrough | internal/domain/finalize.go:101-186 | An upload for which there is room is not refused at any step, and ends with its bytes in use and nothing held |
| TokenBuckets.WindowBound | internal/transport/middleware.go:363-381 | In any stretch of calls of any run the calls admitted are at most the burst plus the rate times the time the stretch lasts |
| TokenBuckets.GrantedIff | internal/transport/middleware.go:363-381 | From a full bucket a call is refused if and only if some stretch of calls that ends with it would otherwise exceed that bound: nothing is refused without need |
| TokenBuckets.SweepsUnseen | internal/transport/middleware.go:326-342 | If a bucket refills within the maximum age, cleanups at any moments change no decision of any run |
| TokenBuckets.SweepSeen | internal/transport/middleware.go:326-342 | If calls are granted at all and a bucket does not refill within the maximum age, also when it never refills, there is for every key a run of calls and one cleanup after which a call is decided differently than it would have been without the cleanup |
| TokenBuckets.SweepSeenIff | internal/transport/middleware.go:326-342 | Cleanups can be noticed by some run if and only if the burst is at least one and a bucket does not refill within the maximum age |
| TokenBuckets.Telling | internal/transport/middleware.go:363-381 | Two buckets with different contents can always be told apart by some run of calls |
| TokenBuckets.Emptied | internal/transport/middleware.go:363-381 | Every bucket can be emptied by some run of calls |
| TokenBuckets.RateLimiter.Allow | internal/transport/middleware.go:363-381 | The decision and the new bucket, as the runs above use them |
| TokenBuckets.RateLimiterGroup.Allow | internal/transport/middleware.go:303-320 | A call touches only its own key's bucket and creates a full one for a new key |
| TokenBuckets.RateLimiterGroup.Sweep | internal/transport/middleware.go:326-342 | One cleanup removes exactly the keys idle for longer than the maximum age |
| PasswordLimits.WindowBound | internal/transport/share_password_limiter.go:55-101 | With one request after the other for a key, every window shorter than the cooldown holds at most the maximum number of recorded failures |
| PasswordLimits.RunSpreads | internal/transport/share_password_limiter.go:55-101 | Any maximum-plus-one consecutive failures take at least a cooldown, and the entry always explains the failures recorded |
| PasswordLimits.RefusedIff | internal/transport/share_password_limiter.go:55-101 | With one request after the other for a key, a try is refused if and only if the last failure completed a series of the maximum number and lies less than a cooldown back |
| PasswordLimits.SeriesMeans | internal/transport/share_password_limiter.go:79-101 | A series is the failures since the last completed one, or since a pause longer than three cooldowns |
| PasswordLimits.RefusedOnlyAfter | internal/transport/share_password_limiter.go:55-101 | No key is refused before the maximum number of failures, each within three cooldowns of the next and the last less than a cooldown back |
| PasswordLimits.PasswordLimiter.CleanupLocked | internal/transport/share_password_limiter.go:117-141 | Drops exactly the expired and stale entries, then the oldest one if that made no room; the map never exceeds its bound |
| PasswordLimits.PasswordLimiter.Allow | internal/transport/share_password_limiter.go:55-75 | Admits exactly the keys without a running lock, and otherwise gives the time until the lock ends |
| PasswordLimits.PasswordLimiter.RecordFailure | internal/transport/share_password_limiter.go:79-101 | The new entry has this failure as its last; the key is locked for a cooldown exactly when the maximum is reached, and while it is not the entry has one more failure, no lock, and the next request is let in; the map never exceeds its bound |
| PasswordLimits.PasswordLimiter.Reset | internal/transport/share_password_limiter.go:103-110 | Forgets the key |
| InFlight.MemoryBound | internal/domain/upload.go:229-283 | For every interleaving of requests and workers the bytes read and not yet written never exceed the bound, and no weight is given back twice |
| InFlight.Served | internal/domain/upload.go:252-283 | A request for which there is room, a place in the queue and a worker is read, written once, and its weight is given back |
| InFlight.RunAccounted | internal/domain/upload.go:252-283 | The semaphore always holds exactly the weights taken and not given back |
| InFlight.StepQueues | internal/domain/worker_pool.go:39-74 | The queue holds each queued task once within its size and no more workers run than there are |
| InFlight.LeaksStarve | internal/domain/upload.go:256-267 | Weights lost on the early returns never come back: a request that does not fit beside them is never let in |
| Janitors.Janitor.Reap | internal/lifecycle/trash_janitor.go:51-76 | Under every fault schedule and whatever the counts: no row that had not expired is touched and the table stays sound; with nothing failing, exactly the trees of the expired rows whose parent is not in the bin are gone, and counts that covered the rows keep every surplus |
| Janitors.Janitor.PurgeOne | internal/lifecycle/trash_janitor.go:70-74 | What a purge leaves of the files, even when it fails and whatever the counts: rows outside its tree are untouched, those inside are gone, as they were or active |
| Janitors.PurgeOnlyExpired | internal/lifecycle/trash_janitor.go:51-76 | Such a purge of an expired row touches expired rows only |
| Janitors.OlderBelow | internal/lifecycle/trash_janitor.go:51-76 | Below a trashed row, rows were trashed no later |
| Janitors.EarlyByLessThanASecond | internal/lifecycle/trash_janitor.go:62-66 | A row without a trashed parent goes in a sweep exactly when the cutoff has reached the whole second of its deletion; so it goes early exactly when the cutoff lies in the dropped fraction, by less than a second |
| Stores.Store.PutFile | internal/adapters/metadata/sqlite.go:241-253 | Insert of a new row; an existing key is an error; never writes the deletion time |
| Stores.Store.GetBlobBySha | internal/adapters/metadata/sqlite.go:93-111 | The blob row, if there is one |
| Stores.Store.UpdateBlobStorage | internal/adapters/metadata/sqlite.go:196-199 | Records a path; a missing row is not an error |
| Stores.Store.ListFilesByBlob | internal/adapters/metadata/sqlite.go:453-464 | The rows naming a hash, trashed ones included |
| Stores.Store.ListAllBlobs | internal/adapters/metadata/sqlite.go:538-558 | Every blob row once, in some order |
| Stores.Store.ListAllFiles | internal/adapters/metadata/sqlite.go:560-572 | Every row once, trashed ones included |
| Stores.Store.DeleteFile | internal/adapters/metadata/sqlite.go:447-451 | A missing row is not an error |
| Stores.Store.ReparentFile | internal/adapters/metadata/sqlite.go:634-642 | Sets parent and path; a missing row is not an error |
| Stores.Store.UpdateFileParent | internal/adapters/metadata/sqlite.go:644-654 | Sets the parent; a missing row is not an error |
| Stores.Store.RenameFile | internal/adapters/metadata/sqlite.go:574-577 | Sets name and path; a missing row is not an error |
| Stores.Store.ReleaseNamespaceReservation | internal/adapters/metadata/sqlite.go:79-91 | Drops a reservation by key |
| Stores.Store.GetFile | internal/adapters/metadata/sqlite.go:285-292 | Only rows outside the bin are found |
| Stores.Store.ListChildren | internal/adapters/metadata/sqlite.go:367-388 | The active children, each once, in some order |
| Stores.Store.ListTrash | internal/adapters/metadata/sqlite.go:400-422 | The namespace's rows in the bin, each once, in some order |
| Stores.Store.MoveFileToTrash | internal/adapters/metadata/sqlite.go:424-433 | Only an active row; whole seconds |
| Stores.Store.RestoreFile | internal/adapters/metadata/sqlite.go:435-445 | Only a trashed row |
| Stores.Store.AcquireBlob | internal/adapters/metadata/sqlite.go:164-193 | Insert or increment in one step; the row's path is the canonical one |
| Stores.Store.IncrBlobRef | internal/adapters/metadata/sqlite.go:201-214 | A missing row is an error |
| Stores.Store.DecrBlobRef | internal/adapters/metadata/sqlite.go:217-239 | Two statements: a failed second one reports an error although the count was lowered |
| Stores.Store.ReserveNamespaceBytes | internal/adapters/metadata/sqlite.go:40-76 | Sum, compare and upsert in one step; the current reservation is looked up by key alone |

## Left out

- HTTP handlers, authentication, sharing pages, WebSockets, metrics, configuration, migrations and the user interface: plumbing over libraries.
- Compressors, archives, SHA-256, S3 and local file I/O: foreign code. Decompression, hashing and the storage-name filter are parameters; a failed write is modelled as leaving nothing at its path.
- The PostgreSQL store: the same contracts as the SQLite one.
- Creation times, tags and the X-Tree-SHA256 header: no operation modelled depends on them. The undo of a deletion does not restore tags.
- The order of query results: any order, each row once, stands for the ORDER BY clauses.
- `deleteDir` and its per-level undo, which is not tree-atomic and deletes objects before it is done.
- Session expiry and the session reaper: keys do not expire in the model.
- Appends to one session that overlap each other or its finalize, and REST uploads that overwrite recorded chunks: the code does not order these steps. A caller that leaves while its chunk is being written is covered.
- Deletions concurrent with commits of the same content: the code does not order these steps.
- `StreamBatch` and its generated names.
- Runs.EveryRun: a submission or a batch copy is a run of its row, filing, link and relocation steps, each of them shown in Operations, and not one step. Six things are no step of a run, because after them one of the invariants may be gone: re-acquiring content whose bytes are gone; restoring below a trashed parent, also by a purge that failed; moving content onto a path of other content, or not recording where it went; copying a row and failing to count it; a deletion that failed because a lowered count could not be read back; a deletion whose rollback failed as well. The first three are the exact failing conditions of IncrStored, CommitStoresContent, UnmarkedSound and MoveKeepsContent, the fourth that of MissedIsDrift; of the last two DeleteDirDeferred and PurgeFromTrash say what remains.
- PasswordLimits.WindowBound: one request after the other for a key, no reset and no eviction of the key for room; requests that pass Allow together may each record a failure.
- Finalize.Finalizer.Finalize: the path written to is required to be new; session identifiers of one length never share one (FlatPathsApart).
- Several source functions are split into methods for their loop bodies and branches; the sort calls of the Go library stand as an insertion sort.
- InFlight.MemoryBound: safety only; the early returns that keep their weight are shown to starve later requests.

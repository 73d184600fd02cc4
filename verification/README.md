# A verified model of the DBVM store

DBVM keeps a file tree in SQLite tables: file rows, chunk rows that name content-addressed blobs, snapshots,
undo records, the set of files whose whole-file hash is pending, and counters that row triggers maintain. This
project models that store, the operations on it, and the components built on it, and proves what they promise.

Check everything with `dafny verify dfyconfig.toml`.

## How the model is built

| files | what they hold |
|---|---|
| `Tables`, `Chunking`, `Trees`, `Policy` | rows, chunk rows, blobs, reference counts; contents as chunk lists; trees; rules and the byte counter |
| `Paths`, `Connection`, `Views`, `Rows` | ancestors; the tables as one mutable object, its invariants, and the row statements with their triggers |
| `Store`, `Read`, `Ranges`, `Hashes` | whole-file and streamed writes, cached reads, ranged writes and truncation, pending hashes |
| `Snapshot`, `Undo`, `UndoRefines` | snapshots and undo records on tables, and the steps they are on trees |
| `World`, `Rewind`, `Machine` | the store and the session as state machines over trees: the theorems over every run; the store as one object whose calls are those steps |
| `Discipline`, `Sync`, `SyncRuns`, `SessionSteps`, `Session` | capture before write, syncing host entries, the session object and its commands as runs of the store |
| `OverlayNames`, `Overlay`, `OverlayFiles`, `RawChunks`, `OverlayWrites`, `OverlayLayers`, `OverlayRun` | the Base and Delta overlay: names and whiteouts, layered reads, copy-on-write edits, the overlay as one object whose calls are steps |
| `Moves`, `Inodes`, `Mount`, `Fuse` | row moves, the inode tree, the mount's requests |
| `Density`, `Verify`, `Inject`, `Quota`, `LikePatterns`, `Seccomp`, `MountLinks` | gap tests and deep verification, package merge, policy over runs, LIKE prefixes, the syscall filter, link texts |

The connection is a class whose fields are the tables. A savepoint or transaction is a copy of the tables it
covers, put back on failure. A trigger is part of the statement it fires on. The three chunk tables carry the
same triggers and are one map keyed by the table a row is in, so a reference count is the number of rows that
name a blob. `Sound` says: every count is exact and positive, no chunk row is without its blob, every block
decodes to the content its key names, chunk rows exist only where their path does, pending marks only on
existing paths, and the byte counter is the sum of the rows. Every operation that keeps it states so. A ranged
overlay write can leave wrong counts, so what the overlay uses asks only for `Shaped` (the last three) and
decodable blocks, and states besides that exact counts stay exact.

Operations are methods with contracts on the tables, mostly as relations that hold slot by slot or path by path.
Lemmas named `…Refines` say which step on trees a change of tables is; what holds over every run is proved on
trees. The class `Machines.Vm` records each call's steps as a ghost history, so those theorems hold of every
sequence of calls; `Sessions.Session` does the same for commands and rewinds, and `OverlayRuns.OverlayRun` for an
overlay.

SHA-256 is an injective constructor, so a key names one content. zstd is idealized: a block decodes to its raw
bytes, and one written with a dictionary only with that dictionary. Paths are normalized sequences of names,
`[]` being `/`, and `LIKE 'p/%'` in the overlay, undo and sync code is "below p". That reading holds for names
without `_` or `%` and without two names that differ in case only, because those patterns are not escaped and
LIKE ignores case; `LikePatterns` proves what the escaped patterns of the policy triggers match.

## What the code does that its comments do not say

* A rewind to a record is exact only while no rewind went below it (`RewindBelowKeepsPointIff`).
* Writing below a removed directory brings back Base content below the written path unless the path itself was
  whited out (`HiddenBelowIff`), and a whiteout on the root is never cleared by a write to another path.
* A ranged overlay write to a whited-out Base file starts from its old content (`StartsFromViewIff`).
* Overlay chunk writes lack the test for an unchanged chunk: rewriting the only reference to a block with the
  same bytes drops the block. The write then fails, or, if a later chunk of the same write stores those bytes
  again, succeeds with a count one too low (`WriteRangeLayered`, `RewriteMiscounts`).
* A ranged overlay write at a path where the Delta has a directory succeeds: the row stays a directory and gets a size,
  a hash and chunk rows (`WriteRangeLayered`).
* Reading a whole overlay file fails when the Delta holds a proper initial run of its chunks (`ReadFile`).
* The comment above the reserved-path test says files below `/tmp` are synced; the code reserves them all.
* `covers` is documented as the rule the triggers apply; the triggers ignore the case of letters.
* A rename counts a file twice against the quota while it is checked (`MoveRefusedForQuota`).
* A full sync that is refused a deletion returns with its transaction open; the connection still sees its partial
  work, which its undo record covers (`SyncTree`).

## Model

| member | source | states |
|---|---|---|
| `Rewinds.RewindRestores` | src/session.rs:151-198 | A command that leaves an undo record, followed by any run of kept, rolled-back and refused commands and of rewinds that never go below that record: rewinding to it gives exactly the tree (rows and chunk lists) the command started from. |
| `Rewinds.PointRestores` | src/session.rs:189-198 | The same for any position of any history: the record left by command i leads back to the tree before command i. |
| `Rewinds.RestoresKept` | src/session.rs:172-182 | Every kind of command, and every rewind to the same or a later record, keeps every restore point, although records of rolled-back and rewound commands stay in the log and are applied again. |
| `Rewinds.RestoresKeptOverRuns` | src/session.rs:151-198 | The same over every run. |
| `Rewinds.RecordUndoes` | src/session.rs:168-182 | The record a command leaves, applied to the state the command leaves, gives the state before it, for a kept and for a rolled-back command. |
| `Rewinds.RewindBelowKeepsPointIff` | src/session.rs:191-198 | A rewind below a restore point keeps it if and only if every path that the point's own suffix of records does not hold, but some record from the lower id on does, is now as the oldest of those records has it; the condition is told from the log and the current tree. |
| `Rewinds.RewoundAt` | src/session.rs:191-195 | After a rewind a path is as the oldest applied record has it, or unchanged when none holds it. |
| `Rewinds.RewindBelowLosesPoint` | src/session.rs:191-198 | A concrete history in which a rewind below a restore point loses it, so the proviso is needed. |
| `Rewinds.RewindExactIff` | src/session.rs:191-195 | A rewind reaches the same tree from another start if and only if that start agrees with the goal on all paths the applied records do not hold. |
| `Rewinds.RewindAfterRewind` | src/session.rs:191-195 | Rewinding to a later point first makes no difference to a rewind to an earlier one. |
| `Rewinds.ApplyUndoes` | src/vm/undo.rs:100-125 | Applying a record that covers a step (captured paths as they were, other paths unchanged) is the inverse of the step. |
| `Rewinds.RecordDiffIsTreeDiff` | src/vm/undo.rs:80-98 | The change list computed from the record of the touched paths is that of a full copy of the earlier tree: created, deleted, and modified exactly when kind, hash, mode or link differ. |
| `Sessions.Session.Exec` | src/session.rs:151-187 | One command appends exactly one step of the session machine to the history: kept, rolled back, or refused with its record deleted. It ends in an error only if the rules refuse a deletion the sync has to make, and refused only for a path looked at that is unreadable or refused in rows the sync can have reached; so if all entries can be read and the rules leave room for all of them, in whatever order, it is done. After a kept command every reported path on a host that is a tree (or, in a full sync, the whole tree) mirrors the host; after a refusal or a rollback the tree is the old one; the reported changes are the difference between the two trees; snapshots keep their trees, and however it ends every protected row is as it was and none came. |
| `Sessions.Session.Rewind` | src/session.rs:189-198 | Fails exactly when there is no such record; otherwise, for every command of the session's history that left record u with no rewind below u since, the tree is the one that command started from. The records and the snapshots stay. |
| `Sessions.Session.AlwaysExact` | src/session.rs:151-198 | From an exact start, after any history of commands and rewinds every live file, every snapshot and every undo record has the exact hash of its content. |
| `SessionSteps.SyncSteps` | src/vm/tree.rs:263-332 | A sync that leaves an exact tree under a record that covers it is a run of the store: the record opened, each of its paths captured, then each written whole or removed. |
| `SessionSteps.RewindSteps` | src/session.rs:189-198 | A rewind is a run of applied records, newest first. |
| `SessionSteps.CommandSteps` | src/session.rs:155-182 | Every command, kept, rolled back or refused, is a run of the store from the state before it to the state after it. |
| `SessionSteps.HistorySteps` | src/session.rs:151-198 | A whole history of commands and rewinds is one run of the store, so the theorems over every run of the store hold of it. |
| `Sessions.Session.constructor` | src/session.rs:97-105 | A session starts with an empty history on a database without pending hashes, which is how materializing its tree leaves it. |
| `Sessions.SyncCommand` | src/session.rs:155-161 | However the sync of a command ends, its new record covers what was done to the live tree, and the other records are untouched. |
| `Sessions.UndoDiff` | src/vm/undo.rs:80-98 | The change list of the record against the live rows, path by path. |
| `Sessions.ApplyRecord` | src/vm/undo.rs:100-125 | The live tree becomes the old one with every recorded path put back; the log is unchanged. |
| `Sessions.DeleteRecord` | src/vm/undo.rs:127-131 | The record goes, all other records and the live tree stay. |
| `Sessions.ApplyDown` | src/session.rs:192-195 | Applies the records from the newest down to u, passing through the trees the rewind specification names. |
| `Discipline.LogCapture` | src/vm/undo.rs:54-69 | Capturing one more path keeps the record a faithful account of what was there before the step. |
| `Discipline.LogWrite` | src/vm/tree.rs:275-331 | Writing or deleting captured paths keeps the record a faithful account of the step. |
| `Discipline.LoggedCovers` | src/vm/tree.rs:255-331 | A record kept under the capture-before-write discipline covers the step in the sense of the restore-point theorem. |
| `Discipline.LoggedLog` | src/vm/undo.rs:16-43 | Rows and chunk rows of all other undo records are as they were. |
| `Discipline.LoggedSnaps` | src/vm/tree.rs:263-332 | The trees of all snapshots are as they were. |
| `Sync.SyncOne` | src/vm/tree.rs:263-332 | The row is captured before it is written; unchanged exactly when the row already has the entry's kind, mode and target, or size, times, mode and in a full sync hash; fails exactly when the entry cannot be read or the write is refused, and then the live row is as it was; otherwise the row mirrors the entry field by field, bytes and hash included; no other path is touched. An entry that cannot be opened at all is not captured. Exact entries stay exact. |
| `Sync.WriteFileChecked` | src/vm/store.rs:119-131 | A host file is stored whole, with its nanosecond stamp only if it did not change while it was read; fails exactly on a read error or a refusal and then changes nothing. |
| `Sync.WriteEntry` | src/vm/tree.rs:276-330 | Writes the row for a readable entry over whatever is at the path, including a change of kind; an exact entry is replaced by an exact one. |
| `Sync.CaptureAll` | src/vm/undo.rs:71-78 | All paths are captured, the first capture of each counting, and the other records stay. |
| `Sync.DeleteLogged` | src/vm/tree.rs:443-452 | The rows are captured and then deleted in one statement, which is refused exactly when one of them is protected. |
| `Sync.RefusedAgain` | src/vm/store.rs:127-129 | The second row update of a checked write is never refused once the first was accepted. |
| `SyncRuns.SyncPath` | src/vm/tree.rs:432-455 | A reported path missing on the host goes with everything below it, refused exactly when some row of that is protected; one that is there mirrors it or is counted as a failure, and that exactly when it needs a write and is unreadable or refused; every counter of the report moves as the path was treated; no other row is touched and the step stays covered by the record. |
| `SyncRuns.SyncEach` | src/vm/tree.rs:430-457 | Without failures, on a host that is a tree and without link aliases, every reported path ends up mirroring the host or without a row at or below it, whatever the paths after it did. A failure has a culprit among the paths, in rows the sync can have reached; an error a protected row below a missing path. |
| `SyncRuns.SyncPaths` | src/vm/tree.rs:420-459 | Pending hashes first; then everything done is covered by the record, or a refused deletion rolls back everything, the captures included. Without failures, on a host that is a tree, every reported path is in line with it. Failures and errors have the same causes. |
| `SyncRuns.SyncTree` | src/vm/tree.rs:353-418 | Everything done is covered by the record even when a refused deletion stops it half way, which takes a protected row without an entry; without failures the live tree mirrors the host, and the rows left that the host does not have are exactly link rows a host link stands for or a real row shadows. |
| `SyncRuns.DeleteGone` | src/vm/tree.rs:407-414 | Rows the walk did not see are captured and deleted; it ends early exactly when one of them is protected. |
| `SyncRuns.SyncWalk` | src/vm/tree.rs:387-405 | Every walked entry is mirrored or counted as a failure, nothing else is touched, no row goes, and a failure has a culprit. |
| `SyncRuns.SyncEntry` | src/vm/tree.rs:387-405 | One walked entry: reserved paths and aliases are skipped, an unreadable one is a failure and does not count as seen; every counter moves as the entry was treated. |
| `SyncRuns.RoomForAll` | src/vm/tree.rs:387-414 | If every entry can be read, none of the paths is protected, no file is above a size limit and all host files fit under every quota beside what is there, no path is ever in the way, in whatever order and at whatever point of the sync. |
| `SyncRuns.ReservedIff` | src/vm/tree.rs:190-205 | Never mirrored are exactly the root, everything at or below /dev, /proc, /sys, /tmp, /.selfdb and /opt/piagent, and every path with a component that starts with __pycache__. |
| `SyncRuns.SyncPresent` | src/vm/tree.rs:390-404 | Brings the row of one entry in line and counts it once, as created, updated, up to date or failed. |
| `UndoRecords.UndoBegin` | src/vm/undo.rs:45-50 | A new empty record under an id larger than all in use. |
| `UndoRecords.UndoCapture` | src/vm/undo.rs:52-69 | The first capture of a path records its row, or that it did not exist, and its chunk list; later ones change nothing. Counts stay exact. |
| `UndoRecords.UndoApply` | src/vm/undo.rs:100-125 | All recorded paths are removed, then those that existed come back with their chunk rows; counts stay exact although the deletes release blobs first. |
| `UndoRecords.UndoDelete` | src/vm/undo.rs:127-131 | The record and its chunk rows go; counts stay exact. |
| `UndoRefines.CaptureRefines` | src/vm/undo.rs:52-69 | On trees: the record gains the path's entry as it is now, nothing else changes. |
| `UndoRefines.ApplyRefines` | src/vm/undo.rs:100-125 | On trees: the live tree becomes the old one with the record applied, and the pending marks of recorded paths are dropped. |
| `UndoRefines.DeleteRefines` | src/vm/undo.rs:127-131 | On trees: only that record goes. |
| `UndoRefines.BeginRefines` | src/vm/undo.rs:45-50 | On trees: only an empty record is added. |
| `Worlds.HashesExactOverRuns` | src/vm/schema.rs:312-319 | Over every run of full writes, deferred writes, finalizing, renames, removals, merges of exact packages, snapshots, restores and undo steps, every live file not marked pending has the exact hash of its content, and so do all snapshots and undo records. |
| `Worlds.MergeExactIff` | src/inject.rs:91-139 | A merge keeps all hashes exact if and only if the entries of its package are exact: the merge copies their hashes without computing them. |
| `Worlds.SnapshotRestoresOverRuns` | src/vm/snapshot.rs:99-131 | After any run that does not delete it, a snapshot has its tree, and restoring it makes the live tree exactly that tree with nothing pending. |
| `Worlds.HeldTree` | src/vm/snapshot.rs:99-131 | A snapshot has the tree it had at any earlier point of a run since which it was not deleted. |
| `Machines.Vm.AlwaysExact` | src/vm/schema.rs:312-319 | After any sequence of calls on the store object, every file not marked pending has the exact hash of its content, and so do all snapshots and undo records. |
| `Machines.Vm.AlwaysInQuota` | src/policy.rs:215-236 | After any sequence of calls that holds no restore and no applied undo record, from a total within the quotas, the sizes of all files together are at most every quota. |
| `Machines.Vm.Put` | src/vm/store.rs:143-163 | A whole-file write is one step of the abstract machine, or none; it is refused exactly when the rules refuse its row. Like every call but a restore and an undo, which bypass the rules, it keeps the total within the quotas. |
| `Machines.Vm.PutFrom` | src/vm/store.rs:56-101 | So is a streamed one; it fails exactly when the reader does or the rules refuse the row. |
| `Machines.Vm.PutOther` | src/vm/store.rs:165-184 | So is a directory or link, refused exactly when the path is protected. |
| `Machines.Vm.Delete` | src/vm/schema.rs:355-356 | So is a deletion, refused exactly when the row is protected. |
| `Machines.Vm.WriteAt` | src/vm/store.rs:303-335 | A ranged write is the deferred step that splices the present content; in any state a sequence of calls reaches it succeeds exactly for a regular file whose new size the rules accept. |
| `Machines.Vm.Truncate` | src/vm/store.rs:348-371 | A truncate is the deferred step that resizes the present content, with the same exact condition. |
| `Machines.Vm.FinalizeAll` | src/vm/store.rs:405-411 | Finalizing is one step and empties the marks on success; in every state a sequence of calls reaches it fails only for a pending file whose row, with the hash of its content, the rules refuse. |
| `Machines.Vm.TakeSnapshot` | src/vm/snapshot.rs:74-97 | A snapshot is a finalize step and a capture step; in every reachable state it fails only for such a row. |
| `Machines.Vm.Restore` | src/vm/snapshot.rs:99-131 | Restoring gives exactly the tree the snapshot had at any earlier point of the history since which it was not deleted, whatever was called in between. |
| `Machines.Vm.Retain` | src/vm/snapshot.rs:150-162 | Retaining is one step that deletes the oldest snapshots, keeping the newest n. |
| `Machines.Vm.DropSnapshot` | src/vm/snapshot.rs:133-148 | Deleting a snapshot is one step. |
| `Machines.Vm.Begin` | src/vm/undo.rs:45-50 | Opening a record is one step. |
| `Machines.Vm.Capture` | src/vm/undo.rs:52-69 | The first capture of a path without a pending hash is one step, a later one none. |
| `Machines.Vm.Undo` | src/vm/undo.rs:100-125 | Applying a record is one step. |
| `Machines.Vm.Forget` | src/vm/undo.rs:127-131 | Deleting a record is one step. |
| `Machines.Vm.RenameEntry` | src/fuse.rs:469-521 | A rename through a mount is the removal of the entry it replaces, if any, and one re-keying step, or no step when the entry is already there; it fails only for a missing entry or directory, a bad name, an impossible move, or a refused one. |
| `Machines.Vm.MergeIn` | src/inject.rs:69-152 | Merging a package of exact entries, the only kind that keeps the hashes exact, is one merge step and one finalize step, or none when it fails; a well-formed package fails only where the rules refuse a row. |
| `Worlds.StaleCaptureBreaksExactness` | src/vm/tree.rs:425-425 | Why a sync finalizes first: a path captured while its hash is pending would come back with a wrong hash and no mark. |
| `Snapshots.SnapshotCreate` | src/vm/snapshot.rs:74-97 | Pending hashes are computed, then the snapshot holds all live rows and chunk references under a new id; counts stay exact. It fails only for a pending file whose chunks are not there or whose row the rules refuse. |
| `Snapshots.SnapshotRestore` | src/vm/snapshot.rs:99-131 | Fails exactly when there is no such snapshot, changing nothing; otherwise the live rows and chunk rows are the snapshot's, and no blob it needs was lost while the live tree was cleared. |
| `Snapshots.SnapshotDelete` | src/vm/snapshot.rs:133-148 | The snapshot's rows and chunk rows go and its references are released; counts stay exact. |
| `Snapshots.SnapshotRetain` | src/vm/snapshot.rs:150-162 | Exactly the newest n snapshots stay, with all their rows and chunk rows; every removed one is older than every kept one. |
| `Snapshots.CreateRefines` | src/vm/snapshot.rs:74-97 | On trees: the snapshot is the live tree, nothing else changes. |
| `Snapshots.RestoreRefines` | src/vm/snapshot.rs:99-131 | On trees: the live tree becomes the snapshot's tree, nothing else changes. |
| `Snapshots.SnapDeleteRefines` | src/vm/snapshot.rs:133-148 | On trees: only that snapshot goes. |
| `Snapshots.RetainRefines` | src/vm/snapshot.rs:150-162 | On trees: exactly the removed snapshots go; the others, the live tree and the records stay. |
| `Tables.InsertKeeps` | src/vm/schema.rs:342-343 | Inserting a chunk row whose blob exists keeps every count equal to the number of rows naming the blob. |
| `Tables.DeleteKeeps` | src/vm/schema.rs:344-348 | Deleting a chunk row keeps every count exact, drops a blob exactly with its last reference, and leaves no row without its blob. |
| `Tables.IdleIsZeroCount` | src/vm/maint.rs:214-228 | With exact counts, no blob being unreferenced is the same as every count being positive. |
| `Connections.Connection.InsertSlots` | src/vm/schema.rs:342-343 | Any set of chunk rows of any of the three tables can be inserted one by one: exact counts are exact after each and no block becomes unreferenced; decodable blocks stay so. |
| `Connections.Connection.DeleteSlots` | src/vm/schema.rs:344-348 | The same for deletions, from any state of the counts. |
| `Rows.DropPath` | src/vm/schema.rs:355-356 | Deleting a row takes its chunk rows and its pending mark with it and keeps the byte counter the sum of the rows; exact counts stay exact. |
| `Rows.CopySlots` | src/vm/snapshot.rs:119-121 | Copying chunk rows between tables copies exactly the selected rows and keeps counts exact. |
| `Rows.AttachPath` | src/vm/undo.rs:113-121 | Inserts a live row with the chunk rows of a snapshot or undo record. |
| `Verify.DeepChecks` | src/vm/maint.rs:206-238 | The recomputing check passes if and only if the counts are exact, no chunk row dangles, the byte counter is the sum of the rows, and chunk lists have no gaps. |
| `Verify.NoGaps` | src/vm/maint.rs:229-238 | Count against largest index, list by list, decides whether any live or snapshot chunk list has a gap. |
| `Density.ChunksAreDense` | src/overlay.rs:981-991 | A chunk list is gap-free from 0 exactly when its count is one more than its largest index. |
| `Verify.CountedPasses` | src/vm/maint.rs:206-238 | A database with exact counts, rooted chunk rows and canonical entries passes it. |
| `Store.PutFile` | src/vm/store.rs:143-163 | Succeeds exactly when the rules accept the row; then the row is a file with the given mode and time, the stamp it had or 0, the size and hash of the data and no link, and the chunk list is that of the data; otherwise nothing changed although the chunk rows were replaced first. Exact counts stay exact, and it does the same from wrong ones. |
| `Store.PutStream` | src/vm/store.rs:56-101 | For every pattern of short reads the row, field by field, and the chunk list are those of a put of the whole content with the given stamp; a read error or refusal leaves the previous file intact. |
| `Store.FillChunk` | src/vm/store.rs:69-77 | Fills exactly the next chunk whatever lengths the single reads deliver, and fails exactly when the reader fails inside it. |
| `Store.PutNode` | src/vm/store.rs:165-184 | A directory or link with the given mode, time and target replaces what is at the path, with no size and no hash; a replaced file gives its chunk references back; a refusal changes nothing. |
| `Store.EnsureParentDirs` | src/vm/mod.rs:95-105 | Without a refusal exactly the missing ancestors below the root become directories; it stops only at one whose row the rules refuse, and leaves those inserted before it. |
| `Store.ChunksReplace` | src/vm/store.rs:41-50 | The chunk list becomes the pieces of the data; counts stay exact although old blobs are released first. |
| `Chunking.PieceIs` | src/vm/store.rs:12-30 | A content is cut every 65536 bytes, and the pieces are its bytes. |
| `Store.PutRefines` | src/vm/store.rs:143-163 | On trees: one entry is replaced by an exact one, nothing else changes. |
| `Read.ReadRange` | src/vm/read.rs:70-114 | For a regular file with a hash it fails exactly when a chunk of the clamped range has no row, or neither its block decodes to what the row names nor the cache holds it; otherwise, for content s, the result is the slice of s. With exact counts and decodable blocks every file reads back. |
| `Read.WholeFileRange` | src/vm/read.rs:81-114 | A file that holds s has the chunks any ranged read of it needs. |
| `Read.ChunkByKey` | src/vm/read.rs:52-67 | Returns exactly the content the key names, and fails exactly when neither the cache has it nor its block decodes to it; the cache stays correct without invalidation. |
| `Read.ChunkCache.Put` | src/vm/read.rs:33-45 | Every cache entry stays the content its key names. |
| `Read.HoldsOne` | src/vm/read.rs:184-216 | The rows of a file describe at most one content. |
| `Ranges.PutChunk` | src/vm/store.rs:258-274 | Points one chunk row at new content with counts exact, leaving an unchanged chunk alone. |
| `Ranges.WriteRangeDeferred` | src/vm/store.rs:303-335 | For a file holding s: succeeds exactly when the rules accept the new size and any old bytes it needs can be read (the file has a hash, or the write starts at the end of whole chunks); then the file holds s spliced with the data in canonical layout and its hash is marked pending; any failure changes nothing. |
| `Ranges.TruncateRangeDeferred` | src/vm/store.rs:348-371 | For a file holding s: the same with s cut or zero-extended to the new size; cutting needs no stored hash. |
| `Ranges.PatchedIsPiece` | src/vm/store.rs:314-331 | Patching chunk by chunk gives the pieces of the spliced content. |
| `Hashes.WholeFileHash` | src/vm/store.rs:376-386 | Fails exactly when a chunk is missing, does not have the length the size implies, or cannot be decoded; otherwise the result is the hash of the joined chunks. |
| `Hashes.FinalizeFile` | src/vm/store.rs:389-400 | A pending file gets the hash of its joined chunks and loses its mark; it fails, changing nothing, exactly when its chunks are not there in full length, one cannot be decoded, or the rules refuse the row. No other field of the row changes. |
| `Hashes.FinalizeDirty` | src/vm/store.rs:405-411 | On success nothing is pending and every file that was pending has the hash of its joined chunks; without rules it succeeds exactly when those chunks are all there in full length. Otherwise the file it stopped at cannot be finalized. |
| `Hashes.DeferRefines` | src/vm/store.rs:277-282 | On trees: a ranged write leaves the entry with the new content and the mark. |
| `Hashes.FinalizeRefines` | src/vm/store.rs:389-400 | On trees: the entry's hash becomes exact and the mark goes. |
| `Hashes.FinalizeAllTree` | src/vm/store.rs:405-411 | On trees: finalizing recomputes the hashes of the pending entries and changes nothing else. |
| `Hashes.FinalTotal` | src/vm/store.rs:405-411 | Finalizing keeps the total size of the files. |
| `OverlayNames.ShownOverRuns` | src/overlay.rs:81-84 | Over every run of whole writes, ranged writes, truncates and removals, none of the root, no Delta row is covered by a whiteout. |
| `OverlayNames.LookupAgrees` | src/overlay.rs:61-94 | Under that invariant the file lookup, which skips the whiteout check for Delta rows, agrees with locate. |
| `OverlayNames.StepLeavesUnrelated` | src/overlay.rs:337-416 | A whole write, a ranged edit or a removal of p leaves every path that is neither above, at nor below p in the layer it was in. |
| `OverlayNames.EditShows` | src/overlay.rs:527-549 | A ranged edit, which adds one Delta row without its parents, leaves no Delta row covered. |
| `OverlayNames.WriteShowsPath` | src/overlay.rs:206-240 | After a write, p and its ancestors below the root are served by the Delta. |
| `OverlayNames.RemoveHidesExactlySubtree` | src/overlay.rs:337-350 | A removal makes everything at or below p missing and leaves everything else where it was. |
| `OverlayNames.HiddenBelowIff` | src/overlay.rs:387-409 | A Base path below a written p is hidden afterwards if and only if a whiteout on p itself or below it hid it; recreating a removed directory keeps its old content hidden. |
| `OverlayNames.RevivedBelow` | src/overlay.rs:387-393 | A concrete case in which a Base path hidden only by a whiteout above p comes back when p is written. |
| `OverlayNames.RootWhiteoutStays` | src/overlay.rs:376-377 | With the root whited out, a write to any other path leaves that whiteout, and every path missing. |
| `OverlayNames.RootWriteRevives` | src/overlay.rs:400-411 | A write to the root clears its whiteout and hides nothing instead. |
| `OverlayNames.ChildHidden` | src/overlay.rs:353-366 | Under a visible directory a child is hidden if and only if it has a whiteout of its own. |
| `Overlays.Overlay.WhitedOut` | src/overlay.rs:352-366 | True if and only if the path or any ancestor, the root included, has a whiteout. |
| `Overlays.Overlay.LocatePath` | src/overlay.rs:61-67 | The layer a path resolves to. |
| `Overlays.Overlay.ClearWhiteoutsFor` | src/overlay.rs:368-416 | Leaves exactly the whiteouts the run theorems are about: relocked Base paths added, those on the path and its ancestors below the root removed. |
| `Overlays.Overlay.Write` | src/overlay.rs:206-218 | A whole file goes to the Delta, field by field as given, with missing parents as directories of mode 0755 and the whiteouts above it cleared; a refusal changes nothing. Exact counts stay exact, and from wrong ones, as a lossy ranged write leaves them, it does the same to the rows. |
| `Overlays.AllowedIff` | src/overlay.rs:110-190 | A write through the overlay is allowed exactly when the path continues no protected prefix of the Base and no size limit of the Base is below the size. |
| `Overlays.Overlay.MakeNode` | src/overlay.rs:220-240 | The same for a directory of mode 0755 or a link of mode 0777 with its target. |
| `Overlays.Overlay.Remove` | src/overlay.rs:336-350 | The Delta subtree goes, and a whiteout is added exactly when Base has something there; also from wrong counts. |
| `Overlays.Overlay.List` | src/overlay.rs:256-320 | Fails exactly when the path is no visible directory; otherwise the names are exactly those whose child path resolves, and the hide-all branch is never taken. |
| `OverlayFiles.ReadRangeLayered` | src/overlay.rs:441-467 | For a file the overlay shows with content s, in any mix of Delta and Base chunks, the result is the clamped slice of s, or an error exactly when a Delta chunk of the range has lost its block; with exact counts it is always the slice. |
| `OverlayFiles.ReadChunkLayered` | src/overlay.rs:469-506 | A Delta chunk if there is one, else the Base's, else nothing; what is returned is the content the chunk's key names. |
| `OverlayFiles.ReadFile` | src/overlay.rs:72-78 | Equals the full ranged read, or reports an error, and that exactly when the file is in the Delta with a proper initial run of its chunks there or a Delta chunk has lost its block; exact counts are not assumed. |
| `OverlayFiles.ReadDeltaFile` | src/overlay.rs:973-979 | Picks the reader by whether the Delta's chunk list has gaps; fails exactly on a proper initial run or a missing block. |
| `OverlayFiles.ReadFileLayered` | src/overlay.rs:936-971 | The joined chunks across the layers, never short; fails exactly when a Delta chunk has lost its block. |
| `OverlayWrites.WriteRangeLayered` | src/overlay.rs:509-577 | Refused exactly by the Base rules. On success the layered file is the content the write starts from, spliced with the data, and only touched chunk rows of that path change; a row the Delta had keeps kind, mode, link and stamp, a new one is a file with the mode of the Base file it starts from or 0644; on any failure nothing changes; all of that also when an earlier lossy write left wrong counts. From exact counts it succeeds with exact counts if and only if the rules allow it and no touched Delta chunk is rewritten with its own bytes while it is the only row naming them. |
| `OverlayWrites.TruncateRangeLayered` | src/overlay.rs:579-622 | The same for a truncate: on success the layered file is the content cut or zero-extended and the row as after a write, on failure nothing changes, from any counts. From exact counts it succeeds exactly when the path is not protected and resolves to a file, and the counts stay exact. |
| `OverlayWrites.EditFile` | src/overlay.rs:527-576 | The body of both, from any counts: row, touched chunks, dropped tail, whole-file hash of the new content. |
| `OverlayWrites.PutPieces` | src/overlay.rs:552-572 | The touched chunks become the pieces of the edited content, read from whichever layer held them before; from exact counts it succeeds and keeps them unless a rewrite is lossy, and then it fails or leaves some block short. |
| `OverlayWrites.RefreshDeltaFile` | src/overlay.rs:920-934 | The row gets the hash of the layered content; a chunk without its blob is an error. |
| `OverlayWrites.StartsFromViewIff` | src/overlay.rs:528-540 | An edit starts from what the overlay showed, except for a Base file hidden by a whiteout and not shadowed, whose old content it starts from. |
| `OverlayWrites.OnlyTouchedEnter` | src/overlay.rs:545-549 | A chunk row that is new in the Delta belongs to the path and to a 65536-byte block that the write overlaps, from the old end if it starts past it, or that a resize cuts or adds. |
| `OverlayWrites.SizeAtIs` | src/overlay.rs:513-519 | The size the limits are checked against is that of the content the overlay shows, 0 without a file. |
| `OverlayWrites.TablesRow` | src/overlay.rs:900-919 | The row an edit leaves, field by field. |
| `OverlayWrites.ResizeNeverLoses` | src/overlay.rs:595-617 | A resize never rewrites a Delta chunk with its own bytes. |
| `OverlayWrites.EditedLayer` | src/overlay.rs:473-487 | After an edit every layered chunk is the piece of the edited content, for any mix of layers before it. |
| `OverlayLayers.StartExists` | src/overlay.rs:527-540 | While every Delta file holds one content and the Base is canonical, every edit has a content to start from, whatever the whiteouts are. |
| `OverlayLayers.LayeredOne` | src/overlay.rs:469-487 | A layered file holds at most one content. |
| `OverlayLayers.StartOne` | src/overlay.rs:527-540 | An edit starts from one content only. |
| `OverlayLayers.NothingReappears` | src/overlay.rs:580-622 | After a truncation to n and a later write past n, whatever chunks Base has at the path, the overlay shows the old bytes up to n, zeros up to the write, and the data. |
| `OverlayLayers.OkOverRuns` | src/overlay.rs:81-84 | Over every run of whole writes, ranged edits, truncates and removals every Delta file holds one content in every state, so every edit has a content to start from; and no Delta row is hidden as long as the root was not removed. |
| `OverlayLayers.StepKeepsLayers` | src/overlay.rs:206-240 | Every kind of step, a removal of the root included, keeps every Delta file one content. |
| `OverlayLayers.StepKeepsShown` | src/overlay.rs:368-416 | Every step but a removal of the root leaves no Delta row hidden. |
| `OverlayRuns.OverlayRun.Start` | src/overlay.rs:527-540 | Whatever calls were made on the overlay object, an edit of any path has a content to start from. |
| `OverlayRuns.OverlayRun.Write` | src/overlay.rs:206-218 | A whole write is one step of the recorded run, or none when the rules refuse it. Like every call it keeps the counts exact as long as no step was lossy. |
| `OverlayRuns.OverlayRun.MakeNode` | src/overlay.rs:220-240 | So is a new directory or link. |
| `OverlayRuns.OverlayRun.Remove` | src/overlay.rs:336-350 | So is a removal. |
| `OverlayRuns.OverlayRun.WriteRange` | src/overlay.rs:509-577 | A ranged write is one step from the content the run left, or none; refused exactly by the Base rules, and while no step was lossy it fails otherwise only when it is lossy itself. |
| `OverlayRuns.OverlayRun.Truncate` | src/overlay.rs:579-622 | So is a truncate; refused exactly for a protected path, without a file exactly where none is shown, and while no step was lossy it does not fail otherwise. |
| `OverlayRuns.OverlayRun.Read` | src/overlay.rs:441-467 | After any sequence of calls the file shown has one content, and a ranged read gives the asked-for slice of it or, exactly when a Delta chunk of the range has lost its block, an error; while no step was lossy it does not fail. |
| `OverlayRuns.OverlayRun.List` | src/overlay.rs:256-320 | After any sequence of calls without a removal of the root, the listed names are exactly those whose child path resolves. |
| `OverlayLayers.EditKeepsLayers` | src/overlay.rs:527-576 | A ranged write or truncate keeps every Delta file one content, all other files their own. |
| `OverlayLayers.WriteKeepsLayers` | src/overlay.rs:206-240 | So does a whole-path write, which leaves the file with exactly its data whatever the Base has at the path. |
| `OverlayLayers.RemoveKeepsLayers` | src/overlay.rs:337-350 | So does a removal. |
| `RawChunks.PutRaw` | src/overlay.rs:567-572 | Without the unchanged-chunk test: counts stay exact unless the row was the only one naming the same content, and then the row stays without its blob. |
| `RawChunks.RewriteMiscounts` | src/overlay.rs:567-572 | A concrete pair of rewrites that ends with both chunks readable and a count of 1 for two rows. |
| `Moves.MovePath` | src/fuse.rs:501-506 | Moves a row, its pending mark and its chunk rows; refused exactly when a side is protected, the size rules refuse the row at its new path, or that path is taken; counts stay exact. |
| `Moves.MoveAll` | src/fuse.rs:497-508 | On success no row and no new path is protected, every row fits, and the sequential updates equal one simultaneous move of all rows, chunk rows and pending marks; a failure has a reason in the rules or in a taken path. |
| `Moves.MovesRefine` | src/fuse.rs:497-508 | On trees: the re-keyed live tree, marks following their files. |
| `Moves.MoveCount` | src/fuse.rs:506-506 | Moving chunk rows changes no count. |
| `Inodes.UniqueViews` | src/fuse.rs:25-36 | In a table whose parent and child links are inverse and whose child paths extend their parent's, no two nodes have the same path. |
| `Inodes.MoveKeepsUp` | src/fuse.rs:509-518 | After a move every node's parent link is matched by the parent's child link and path. |
| `Inodes.MoveKeepsDown` | src/fuse.rs:509-518 | After a move every child link is matched by the child's parent link and path. |
| `Inodes.RemoveKeeps` | src/fuse.rs:212-219 | Dropping a subtree keeps the table a tree. |
| `Inodes.AddKeeps` | src/fuse.rs:202-209 | Adding an entry keeps the table a tree. |
| `Inodes.ClosedCovers` | src/fuse.rs:236-245 | A set that holds a node and the children of its members holds every descendant. |
| `Mounts.Subtree` | src/fuse.rs:236-245 | Terminates with exactly the nodes at or below the path, each once, parents before children. |
| `Mounts.RemoveNode` | src/fuse.rs:211-219 | Terminates having dropped exactly the nodes at or below the path, with the parent's entry, and the rest untouched. |
| `Fuse.Mount.NewEntryPaths` | src/fuse.rs:191-200 | Succeeds exactly for an unused name in a directory that is not empty, not a dot or two, and has no slash; the new path is no node's. |
| `Fuse.Mount.AddNode` | src/fuse.rs:202-209 | The entry is added under a fresh inode number and the table stays a tree; what that means for the rows is `MakeEntry` and `AddAgreesIff`. |
| `Fuse.Mount.MakeEntry` | src/fuse.rs:374-428 | A create, mknod, mkdir or symlink request: a failed one leaves the table as it was and at most missing parent rows, and with a good new name fails only where the rules refuse a row; a successful one adds exactly one node, one row, field by field as asked for, and its missing parent rows, none of them protected, and the table then agrees with the rows if and only if no other node stands for the new row. A name that is taken is answered by the entry there or refused. |
| `Fuse.AddAgreesIff` | src/fuse.rs:192-209 | A new entry keeps the table in agreement with the rows if and only if no other node stands for its row. |
| `Fuse.PutMade` | src/vm/store.rs:186-204 | Missing parent rows, then the row itself with an empty chunk list; a refusal leaves the parents inserted so far. |
| `Fuse.Mount.Unlink` | src/fuse.rs:429-455 | Succeeds exactly for an entry of the asked kind without children whose row is not protected; then exactly its row, chunk rows and mark go, and its node with its parent's entry; otherwise nothing changes. |
| `Fuse.Mount.Rename` | src/fuse.rs:469-521 | A refused rename changes neither table nor rows; a successful one keeps the table a tree that agrees with the rows, hangs the subtree under its new parent, and moves exactly the rows of the subtree at once, each to the path its place gives, none left behind, a replaced file dropped: as steps of the abstract machine, that removal and one re-keying. It fails only for a missing entry or directory, a bad name, a move into itself or onto a directory, a protected replaced entry, an entry of the subtree the rules refuse, or a taken path. One that was done broke no rule: neither the replaced entry nor any moved row or new path is protected, and every row fits. |
| `Fuse.RenameRows` | src/fuse.rs:495-508 | All rows move in one savepoint, or nothing changes and there is a reason. |
| `Fuse.Relink` | src/fuse.rs:510-518 | The table after the in-place updates, node by node, is the moved tree. |
| `Fuse.MoveAgrees` | src/fuse.rs:484-518 | After rows and table moved, every node has a row of its own kind and of its own again. |
| `Fuse.RenameRefines` | src/fuse.rs:495-508 | On trees: the removal of a replaced entry followed by one re-keying of the subtree, for exactly the moves the rename made. |
| `Inject.Merge` | src/inject.rs:69-152 | On success no row of the package is at a protected path or above a size limit, and the rows are the old ones overridden by every package path but the root, chunk rows likewise, dictionaries only appended, nothing pending, counts exact whatever the package holds, and blocks decodable if the package's are; on any failure nothing changed; a complete canonical package into a canonical target fails only where the rules refuse one of its rows as it comes, or the row of a pending file. |
| `Inject.MergedTree` | src/inject.rs:91-139 | On trees: the target's tree overridden by the package's. |
| `Inject.MergeRefines` | src/inject.rs:91-139 | On trees: the merge step of the abstract machine. |
| `Inject.MergeReadsBack` | src/inject.rs:91-139 | Every injected file holds the package's bytes, every other file its own. |
| `Inject.InjectPath` | src/inject.rs:103-138 | One path is replaced with counts exact although the delete may release blobs the package needs. |
| `Inject.CopyBlobs` | src/inject.rs:117-134 | Every block the path needs is here afterwards, with counts exact; if the package's blocks decode they decode here under their remapped dictionaries. |
| `Inject.MapDicts` | src/inject.rs:74-90 | Each package dictionary in use gets a new id that holds the same dictionary; fails exactly when one is missing. |
| `Inject.RemappedDecodes` | src/inject.rs:124-132 | A package block under its new dictionary id decodes here to the bytes its key names. |
| `Inject.UnmappedLost` | src/inject.rs:74-90 | Under its old id a block compressed with a dictionary is lost where that id is unused or another dictionary's, so the ids have to be mapped. |
| `Inject.AppendedDecodes` | src/vm/codec.rs:18-25 | Appending dictionaries keeps every stored block decodable. |
| `Seccomp.Program` | src/sandbox.rs:549-574 | For every deny list the instructions are the listed numbers, and the emitted bytes, run on any call, return in numbers: 0x80000000 for another architecture, 0x50026 from number 0x40000000 on, 5 in the high half and the errno of the first matching entry in the low one, 0x50001 for number 56 with one of bits 7, 17, 25 to 30 of its argument, 0x7fff0000 otherwise. |
| `Seccomp.FilterCorrect` | src/sandbox.rs:549-574 | The same of the instructions: the byte machine decides every call in that order. |
| `Seccomp.VerdictDecides` | src/sandbox.rs:549-574 | The intended decision in the filter's own terms is the one in numbers. |
| `Seccomp.NamespaceBits` | src/sandbox.rs:568-570 | The bit test of the clone flags holds exactly for an argument with bit 7, 17 or one of 25 to 30. |
| `Seccomp.JumpsStayInside` | src/sandbox.rs:556-572 | Every jump lands on a later instruction of the program. |
| `Seccomp.InsRoundTrip` | src/sandbox.rs:539-546 | The eight bytes of an instruction decode to the instruction. |
| `Seccomp.BytesRunAsList` | src/sandbox.rs:549-574 | Running the bytes is running the instructions. |
| `MountLinks.MountLinkText` | src/owner.rs:70-89 | A relative target is unchanged; the text for an absolute one, resolved from the link's path without its last name, leads to the target's normalized components, no step of it leaves the root, and it has no more components than going through any common directory takes. |
| `MountLinks.SplitComponents` | src/owner.rs:91-102 | The components with `.` and `..` resolved, all of them plain names. |
| `MountLinks.RelativeLeadsThere` | src/owner.rs:82-88 | Climbing to the common prefix and descending leads to the target without leaving the root. |
| `MountLinks.SplitJoin` | src/owner.rs:88-88 | Joining and splitting plain components gives them back. |
| `MountLinks.InsideIff` | src/owner.rs:72-77 | Staying inside the root means that no `..` is met where the steps before it led to the top. |
| `Policy.TotalWith` | src/vm/schema.rs:360-377 | Writing one row moves the recomputed total by exactly what the counter triggers apply. |
| `Quota.RunStaysWithin` | src/policy.rs:215-236 | Over every run of inserts, updates, kind changes, deletes and renames under the rules, the counter is the sum of the rows and the total stays at or below every quota it started at or below. |
| `Quota.CompileRules` | src/policy.rs:184-233 | The compiled limits, the strictest of each kind, refuse exactly what the rules refuse. |
| `Quota.ProtectedRowsStay` | src/policy.rs:241-268 | No run under the rules changes, adds or removes a row at a protected prefix or at any continuation of it. |
| `Quota.PrefixRefuses` | src/policy.rs:170-179 | No write, delete or move, from there or to there, is done at a protected prefix or any continuation of it. |
| `Quota.UnprotectedAccepted` | src/policy.rs:158-162 | A path that continues no protected prefix is refused by none: its directory or link row can be written and deleted. |
| `Policy.ProtectedIff` | src/policy.rs:158-162 | A path is protected exactly when it is a listed prefix followed by any further names. |
| `Policy.RefusedIff` | src/policy.rs:206-236 | A row is refused exactly when it continues a protected prefix, is a file above a size limit, or is a file that would take the recomputed total above a quota. |
| `Quota.MoveRefusedForQuota` | src/policy.rs:215-224 | A rename keeps the total, but rules that refuse the row for nothing else refuse it exactly when the total plus the row's own size is above some quota. |
| `LikePatterns.PrefixPattern` | src/policy.rs:164-179 | The escaped pattern matches exactly the texts that continue the prefix with a slash, up to ASCII case. |
| `LikePatterns.TriggersCoverIff` | src/policy.rs:157-179 | The triggers cover all that `covers` covers, and more exactly when a path continues a prefix differing in case only. |
| `LikePatterns.CaseTwinIsCovered` | src/policy.rs:157-179 | A concrete path on which the two tests differ. |
| `LikePatterns.UnescapedReachesOthers` | src/policy.rs:164-167 | Without the escape a prefix with a wildcard in its name would protect a neighbour; with it, it does not. |

## Left out

- Processes, namespaces, cgroups, gVisor, the model proxy, the command line and the agent runners: input, output and foreign calls.
- The host file tree: what the walk, `lstat`, `readlink` and reads report is an input; materializing, restoring the host tree after a rewind and the inotify watcher are not modelled.
- Which paths a link alias stands for: the alias map of a sync is an input, because `resolve_parent_in_vm` resolves relative links against the wrong directory below the top level.
- Symbolic-link resolution before ranged reads and writes: paths name rows directly.
- Choice of encoding and dictionary training: any encoding that decodes is allowed.
- Legacy layouts: single-chunk files above the chunk size, inline content, migrations, `vm_rechunk` and `vm_recompress`.
- Cache eviction: the cache keeps what is put in, so a chunk whose block is gone still reads if it was cached when the read began.
- Snapshot names and notes, timestamps of records, the log table, `uid` and `gid`, the counters of kinds and of blob bytes, page statistics.
- The bypass flag: operations that run bypassed take no rules into account in the model.
- Overlay quota checks, which count Base sizes of shadowed and hidden files, and the overlay's materialize and absorb.
- Building the inode table from a database: the mount starts from a well-formed table; lookups, attributes and directory reads only add easy members.
- Concurrent connections: each operation runs alone on its tables.
- Inject.AttachChunks: a package chunk row whose block neither database has fails the merge at once; the program attaches it and its deep check before the commit refuses the merge.
- OverlayWrites.WriteRangeLayered: starts from a file in canonical chunk layout, which `OverlayRuns.OverlayRun` shows every sequence of calls keeps; every Delta block decodes; the Delta has no rules of its own; from wrong counts it does not say which writes fail.
- OverlayWrites.TruncateRangeLayered: the same provisos.
- Fuse.Mount.MakeEntry: create with `O_TRUNC` on an existing file, which truncates it.
- Sessions.Session.Exec: has no state for an open transaction: after a full sync was refused a deletion and left its transaction open, the program's next full sync fails when it begins its own, while the model lets it go on.
- SyncRuns.SyncPaths: says that the reported paths end up in line with the host only when no link is kept under another path; with aliases it says what `SyncPath` says of each.
- Verify.DeepChecks: the counters of row kinds and of blob bytes, which the program recomputes as well, are not in the model.
- Machines.Vm.MergeIn: takes a package whose blocks decode and whose entries are exact; `Inject.Merge` asks for neither, and `MergeExactIff` shows what is lost without the second.
- Sync.SyncOne: reads the previous row when it is called; a full sync reads all rows up front, which is the same because each path is walked once.
- Seccomp.Program: the errno is a 16-bit value, so joining it to the return code is an addition; the real deny table is one of the lists it is proved for.

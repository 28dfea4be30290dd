# gogol: a model of the daemon, the index and its store

gogol is a search daemon. It keeps, for each index, a list of entries with
embeddings in memory, publishes immutable snapshots of it, and stores everything
in one SQLite database per index. This project models its hard parts in Dafny and
proves what they are for. `dafny verify dfyconfig.toml` verifies all files together.

## How the model is laid out

- `Daemon.dfy`, `DaemonLaws.dfy`: the mutations (`op_add`, `op_rm`, reindex) as
  methods over a database and the published snapshots; the writer thread among the
  threads that submit and read, as a state machine whose steps are submit, take,
  operate (with its own store writes), save, publish and throw; the sequential fold of
  jobs that every run is compared with; and the simulation of the steps by the methods.
- `Shutdown.dfy`, `ThreadSteps.dfy`: all threads from the shutdown flag to the end: accept
  loop, watcher, handlers with any sequence of embed calls and submissions, writer, embed
  worker; and that the queue and registry classes take the machine's steps.
- `RunIndex.dfy`, `Incremental.dfy`, `RunLaws.dfy`, `Rebuild.dfy`: `run_index` loop by loop,
  then ledgers of which version the entries and the facts of each file are of, then each entry
  and fact as the piece it is of, then histories of runs and added files against one forced run.
- `Storage.dfy`, `StorageLaws.dfy`, `MetaSaves.dfy`, `Survivors.dfy`, `Encoding.dfy`,
  `Keywords.dfy`: the tables, with rowids taken as max+1 and four graphs in one edge table;
  savers and loaders statement by statement, any of which may fail; round trips;
  metadata-only saves, and what they leave of embeddings over runs of the daemon; keyword hits
  as positions.
- `Affected.dfy`, `CallTree.dfy`: the two graph walks.
- `Transport.dfy`, `Search.dfy`, `Packing.dfy`, `Half.dfy`, `Chunking.dfy`,
  `FtsQuery.dfy`, `Debounce.dfy`: the algorithms with sharp specifications.

Loops, fields and in-place arrays of the source are loops, fields and arrays here, each
proved against a specification function; what the source promises is proved of those
functions and over whole runs.

What is taken from outside: the chunkers, extractors, link resolver and embedding model
are arbitrary functions of what they are given; the clock, the file tree and the outcome
of file operations are inputs of the job that reads them; the cipher is any authenticated
cipher that opens what it sealed under the same key and nonce (section 2.8 of RFC 8439;
`Connections.IdealExists` shows that the assumption can be met);
the full-text engine answers with any list of distinct rows; a statement may fail at any
point; a SELECT without ORDER BY returns its rows in any order; the walk order of ordered
maps and directories is left open; scores and cosines are reals.

## Where the code and its words differ

The model follows the code in each case.

- The comment at `src/storage/sqlite_backend.cpp:144` says that F16 storage loses no precision; it
  truncates, and flushes values below 2^-14 to zero. `Half.F16LosesPrecision` is a vector that
  changes, `Half.SurvivesIff` says which do not, `Half.TruncatedTowardZero` and
  `Half.FlushedToZero` by how much.
- The comment above `build_fts_match` says that terms of quotes only are dropped; only
  one-character terms are (`FtsQuery.TermIff`, `FtsQuery.QuotesAreTerms`).
- A file that becomes empty keeps its old entries through every run, forced or not
  (`Rebuild.IncrementalIsRebuildIff`, `Rebuild.ForceKeepsEmptied`, `Rebuild.EmptiedDiffers`);
  restored under its old hash after a forced run it has entries and no facts
  (`Rebuild.FactsGo`).
- Exports and types of unchanged files are lost by a non-forced run
  (`Rebuild.SurfaceRebuiltIff`, `Rebuild.SurfaceGoes`).
- A note stored again without a full save in between keeps the stored embedding of its old
  text, and a new note has none (`MetaSaves.SurvivorKeepsBlob`,
  `MetaSaves.StaleBlobArises`, `MetaSaves.NewNoteHasNoBlob`).
- A note removal that fails after storing leaves its entry published until the next
  reindex (`DaemonLaws.PublishedNotesBacked`, `DaemonLaws.OrphanArises`); a reindex removes it,
  and may drop the entry of a stored note when its embedding fails
  (`DaemonLaws.ReindexMatchesNotes`, `DaemonLaws.ReindexMayDrop`).
- A note added to an index that is stored but was not loaded at start replaces all its stored
  rows by one (`DaemonLaws.UnloadedIsReplaced`), and an embedding it keeps is misread if the
  database held halves (`DaemonLaws.UnloadedMisreads`).
- A keyword hit beyond the snapshot's entries is credited to the next index searched
  (`Search.StrayHit`); it cannot happen while the indexes are idle
  (`DaemonLaws.IdleSearchCreditsOwn`).
- A splitting pattern that matches the empty line loses blank lines
  (`Chunking.ConservesIff`).
- `parent_seg` of a path whose only slash is its first character yields the part after the
  slash, through the wrap-around of `slash - 1` (`ImportGraphs.ParentOf`,
  `ImportGraphs.RootedMatches`).
- A debounce of zero or less admits a mark made just after the clock sample
  (`Debounce.SettledIff`).

## Model

| member | source | states |
|---|---|---|
| DaemonLaws.NoLostUpdate | src/daemon/embed_server.cpp:559-575 | Over every interleaving of submissions with the steps of the one writer, with jobs free to fail at any step before their save commits: at every moment each index's published snapshot is the fold, in run order, of the jobs run on it |
| DaemonLaws.DatabaseAgrees | src/storage/sqlite_backend.cpp:114-235 | In every reachable state with no job of an index under way: its note and glossary tables are those of the fold, and its stored entry metadata is the published sequence, under rowids 1..N with the keyword table over the same rows, if and only if the index was loaded at start or a job has written its rows since |
| DaemonLaws.RowsAgreeUntilSave | src/daemon/embed_server.cpp:563-573 | Even during a job, until its save has committed, the stored rows are the published ones under the same condition |
| DaemonLaws.UnloadedIsReplaced | src/daemon/embed_server.cpp:180-184 | A note added to an index that was not loaded at start leaves the database one row, whatever rows it had |
| DaemonLaws.UnloadedMisreads | src/storage/sqlite_backend.cpp:265-280 | If that database was stored as F16, a blob kept for the note is from then on read as F32: it comes back misread, with its last component 0 |
| DaemonLaws.SnapshotsNeverGoBack | src/daemon/embed_server.cpp:172-190 | What a reader gets of an index is the fold of the jobs run on it; what any reader gets later is the fold of those same jobs followed by others, never of fewer |
| DaemonLaws.ReadYourWrites | src/daemon/embed_server.cpp:559-605 | Once a client has been told that its note was removed, no later snapshot has an entry for it until another job writes the topic; once told that it was added, the note is stored as given and its one published entry is the one made then, hash and embedding included, until a reindex embeds the note again, and after that the one the last such reindex made of the stored note, or none if that embedding was empty |
| DaemonLaws.ReindexMayDrop | src/core/indexer.cpp:120-134 | Such a loss does occur: from any tables, a run in which a note is added and a forced reindex with a failing embedding model follows ends with the note stored and no entry published |
| DaemonLaws.ReadYourFiles | src/core/operations.cpp:70-95 | A file added and embedded is in every later snapshot with that embedding until it is added again or a reindex reads it again or no longer finds it |
| DaemonLaws.JobsRunInOrder | src/daemon/write_queue.h:38-89 | At every moment the jobs done, the one under way and those queued are exactly the submitted ones in submission order: each runs once, first in first out |
| DaemonLaws.JobsAreRequests | src/daemon/write_queue.h:38-89 | Whatever job is done, under way or queued under a ticket is the one a client submitted when it was given that ticket, on the same index, up to what the job reads when it runs |
| DaemonLaws.NotesAreLastWrites | src/adapters/mem_adapter.cpp:71-94 | After any log of jobs each stored note is what the last job to write its topic left, or as at start; index, term and file jobs contribute nothing |
| DaemonLaws.TermsAreLastWrites | src/core/operations.cpp:31-38 | Likewise each glossary term: what the last job to write it left, or as at start |
| DaemonLaws.BackedStepIff | src/core/operations.cpp:116-128 | Any job, reindexes with failing embeddings included, keeps "every note entry has a stored note, and no topic has two entries" exactly when it is not a removal that stored its change and then failed with an entry published |
| DaemonLaws.OrphanArises | src/daemon/embed_server.cpp:591-605 | It does happen: a run of five states at the end of which an entry is published for a note that is not stored |
| DaemonLaws.PublishedNotesBacked | src/core/indexer.cpp:78-91 | In every run that starts so, at every moment at which no job of the index is between its own store writes and its end, the database has the note of each published note entry and no topic has two entries, if and only if no job of that index was a removal that stored its change and then failed with an entry published |
| DaemonLaws.ReindexMatchesNotes | src/core/indexer.cpp:78-91 | Whatever entries a reindex starts from, afterwards a topic has a note entry if and only if it is stored and was not embedded again with an empty result: orphans always go |
| DaemonLaws.IdleSearchCreditsOwn | src/core/searcher.cpp:76-98 | While no searched index has a job under way, each loaded at start or written since, every keyword hit from their databases is the published entry whose text the keyword table holds, and is credited to that entry of its own index and to no other, for any list of indexes; so `Search.ScoreFormula` applies |
| DaemonLaws.JobIsSteps | src/daemon/embed_server.cpp:562-605 | What a whole job leaves in the database, publishes and logs is what a sequence of the protocol's own steps leaves |
| DaemonLaws.RunAddOrRemove | src/daemon/embed_server.cpp:559-605 | The add and remove code simulates the protocol: started in a state that mirrors a protocol state which has just taken the job, it ends in one that mirrors a state the protocol reaches, with this very job logged, as it ended, and no other, the queue untouched, and the result and tables being those specified for the job |
| DaemonLaws.RunReindex | src/daemon/embed_server.cpp:401-433 | The reindex code does too, the logged job differing from the one started only in the orders in which the run met files, notes and facts |
| DaemonLaws.JobIsAct | src/daemon/embed_server.cpp:562-605 | What each save does to an index is an act of the histories of `Rebuild`: a reindex is a run, a file added and embedded is added whole, any other job leaves all files' rows alone |
| DaemonLaws.ExecutionIsHistory | src/daemon/embed_server.cpp:401-433 | Every run of the daemon that starts with nothing stored for an index is, for that index and step by step, such a history, whose acts are the saves of its jobs, none left out, repeated or moved |
| DaemonLaws.DaemonIsRebuildIff | src/daemon/embed_server.cpp:401-433 | So when the save of a reindex commits, in any run of the daemon, the entries of the index's files are those of a rebuild from scratch if and only if the acts of that run, whichever way they are written down, leave no file entries of an earlier version while it yields no chunk now |
| Protocol.StepKeeps | src/daemon/embed_server.cpp:562-605 | Every step of every thread keeps the invariant tying copy, published version, database rows and the fold of the jobs, whether or not an index was loaded at start |
| Protocol.SaveAligns | src/storage/sqlite_backend.cpp:169-235 | Any save that writes the rows leaves them aligned with what is about to be published, whatever they were; any other leaves the tables alone; notes and terms stay as they were |
| Protocol.AllSaveKeeps | src/core/indexer.cpp:144-153 | The save of a reindex writes back the notes and terms it loaded: both tables are unchanged, whatever strings they hold |
| Operations.DaemonState.AddOrRemove | src/daemon/embed_server.cpp:559-605 | Copy, operate, save, publish: a refused or throwing job publishes nothing and leaves other indexes alone; refused are exactly a note whose embedding failed, a removal of what is not there, and a file that could not be written or removed; otherwise publication and database are those of the sequential specification |
| Operations.DaemonState.RunIndexJob | src/daemon/embed_server.cpp:401-433 | The index job, and the watcher's: the same for a reindex, whose orders walk all files and all notes, and which stores the graphs assembled from what it loaded |
| Operations.OpAdd | src/core/operations.cpp:21-95 | Adding a term, note or file: what is stored and what becomes of the entries in each case, a failed embedding included; a throw leaves the store as it was or with the note stored |
| Operations.OpRm | src/core/operations.cpp:98-137 | Removing a term, note or file, with the "not found" and "read-only" refusals |
| Operations.RemoveEntries | src/core/operations.cpp:53-56 | The erase/remove_if idiom keeps exactly the other entries, in order |
| Operations.MemAdd | src/adapters/mem_adapter.cpp:71-83 | The stored notes become the old ones with this one replaced; nothing changes if the save fails |
| Operations.MemRemove | src/adapters/mem_adapter.cpp:85-94 | Found exactly when stored; the stored notes lose this one |
| Shutdown.NoDeadlock | src/daemon/embed_server.cpp:908-922 | In every reachable state with the shutdown flag set, until the main thread is done, some thread can move without any signal, request or hang-up from outside |
| Shutdown.EndsIffWatcherTold | src/daemon/embed_server.cpp:908-922 | From the moment the flag is set, a run that goes on while any thread can move reaches the end if and only if the main thread ever tells the watcher to stop, whatever the schedule and whatever clients still send |
| Shutdown.ShutdownFromFlag | src/daemon/embed_server.cpp:860-922 | It does, and the run ends, if the main thread goes on being scheduled until it waits for another thread |
| Shutdown.OnlyWatcherNeverEnds | src/daemon/file_watcher.cpp:41-66 | A run in which only the watcher is scheduled goes on for ever |
| Shutdown.StepDescends | src/daemon/write_queue.h:26-34 | Once the flag is set and the watcher told to stop, every step of every thread, clients' included, lowers one measure |
| Shutdown.EndState | src/daemon/write_queue.h:68-89 | At the end every job ever submitted has run exactly once in order, every handler was joined exactly once, and no blocking call is outstanding |
| Shutdown.NoHandlerOutlivesState | src/daemon/embed_server.cpp:116-128 | No handler and no watcher is live from the moment the daemon state starts to be destroyed |
| Shutdown.StepKeepsCalls | src/embedding/embed_dispatcher.cpp:27-69 | Every thread blocked in an embed call has exactly one call outstanding, over all steps |
| Shutdown.StepKeepsJobs | src/daemon/write_queue.h:49-60 | Every handler blocked in submit_wait has exactly one unfinished job, over all steps |
| Shutdown.StepKeepsOrder | src/daemon/write_queue.h:39-89 | Jobs finished, running and queued carry the tickets 0, 1, 2, ... over all steps |
| Shutdown.StepKeepsStages | src/daemon/embed_server.cpp:858-922 | What each wait of the shutdown has established stays so: watcher stopped, all connections shut, all handlers joined, writer gone, embed worker gone |
| Shutdown.StepKeepsOnce | src/daemon/embed_server.cpp:98-128 | The log of joins holds each joined handler once and no other, over all steps |
| Threads.WorkQueue.TakeNext | src/daemon/write_queue.h:69-78 | Takes the oldest item; the worker leaves only when told to stop with nothing queued |
| Threads.HandlerRegistry.Spawn | src/daemon/embed_server.cpp:82-93 | Registers the handler under an id never given before |
| Threads.HandlerRegistry.Reap | src/daemon/embed_server.cpp:98-113 | Joins exactly the finished handlers, in the order of their ids, none twice |
| Threads.HandlerRegistry.ShutdownAll | src/daemon/embed_server.cpp:116-128 | Joins all that are left: every id given out has then been joined once |
| ThreadSteps.WriterTakes | src/daemon/write_queue.h:69-78 | What the writer gets from its queue is its step of the state machine: it takes, leaves, or waits where the machine has no step for it (likewise, in the same module, the embed worker, every push to either queue, both stop flags, and the registration of a connection) |
| ThreadSteps.Reaps | src/daemon/embed_server.cpp:98-113 | One tick of the reaper is a sequence of the machine's reap steps, after which no finished handler is left unjoined and registry and state agree |
| ThreadSteps.JoinsAll | src/daemon/embed_server.cpp:116-128 | The last join, once the handlers have finished, is the machine's joining stage, handler by handler, after which every handler is joined |
| Rebuild.IncrementalIsRebuildIff | src/core/indexer.cpp:35-142 | After any history of file edits, with runs forced or not, files added by clients and other jobs in between, ending with a run: each file's entries equal those of one forced run on the final tree, from an empty index, if and only if no file of that tree has entries left of an earlier version and yields no chunk now; equal hash meaning equal content, and no embedding failing or all runs having one glossary |
| Rebuild.IncrementalFactsAreRebuilt | src/core/indexer.cpp:160-265 | For each file after any such history, exactly when its calls, metrics and imports are the rebuild's as multisets: if it yields a chunk, when a run that read it again has not been followed by a forced run that did not, or it has no facts; if it yields none, when what its last read left has no facts; always when it is gone. Its links are too if the same paths were scanned, its embeddings if all runs had one glossary; whatever strings it holds |
| Rebuild.LeftoverIsEmptied | src/adapters/file_adapter.cpp:150-165 | When no embedding fails, the files with entries left are those that once yielded a chunk, never left the tree, and yield none now |
| Rebuild.EmptiedDiffers | src/adapters/file_adapter.cpp:164-165 | A history of two runs after which the index is not what a rebuild gives: a file with text, then empty |
| Rebuild.FactsGo | src/core/indexer.cpp:166-199 | A history of three runs after which entries are the rebuild's and facts are not: a file with text, emptied under a forced run, restored under its old hash |
| Rebuild.FactsMean | src/core/indexer.cpp:166-271 | The facts held of a file are those of the last run that read it again, gone once a run finds the file gone or a forced run does not read it |
| Rebuild.HistoryTracked | src/core/indexer.cpp:35-271 | After any history every file's entries and facts are those of the ledgers of versions read |
| Rebuild.RunExists | src/core/indexer.cpp:35-271 | From every state and for every tree, forced or not, some run of this kind exists |
| Rebuild.ForceKeepsEmptied | src/adapters/file_adapter.cpp:164-165 | A file emptied in place keeps its old entries even through a forced run |
| Rebuild.OnlyChangedFilesExport | src/core/indexer.cpp:160-172 | Exports are not carried over: after any run exactly the files it read again have their exports stored |
| Rebuild.OnlyChangedFilesTyped | src/core/indexer.cpp:160-172 | Nor are types |
| Rebuild.SurfaceRebuiltIff | src/core/indexer.cpp:160-172 | After a run the exports and types of a file are those of a rebuild exactly if that very run read it again, or it yields no chunk, is gone, or has neither |
| Rebuild.SurfaceGoes | src/core/indexer.cpp:160-172 | A history of two runs over one unchanged file after which its exports are gone |
| Rebuild.RunTracked | src/core/indexer.cpp:35-271 | One run, forced or not, on any tracked index leaves entries, calls, metrics, imports and links exactly those of the next ledgers; a forced run starts the facts anew and not the entries |
| Rebuild.LedgerMeans | src/adapters/file_adapter.cpp:150-165 | A file has its place in the ledger exactly when some act yielded it and no run since has found it gone |
| Rebuild.LedgerCurrent | src/adapters/file_adapter.cpp:153-158 | It is held at the version that was current when it last yielded a chunk or was added, equal hashes meaning equal contents |
| Incremental.FileAfterRun | src/core/indexer.cpp:65-76 | What one run leaves of a file's entries: new ones in order if changed, the old ones if only present, none if gone |
| Incremental.NoteAfterRun | src/core/indexer.cpp:78-91 | What one run leaves of a note's entries: none if the note is gone; if embedded again a single new one, or none where the embedding came back empty; otherwise the old ones |
| Incremental.FactsAfterRun | src/core/indexer.cpp:173-265 | The same for calls, metrics, imports, links and exports of one file |
| Incremental.FactsTracked | src/core/indexer.cpp:160-269 | Loading, updating and saving the graphs keeps each file's facts those of the version last read, whatever strings they hold and through whatever row order the database returns |
| Incremental.ChangedIs | src/adapters/file_adapter.cpp:153-158 | The files read again are exactly those whose hash differs from what is held, or of which no entry is held, failed embeddings included |
| Indexing.RunIndex | src/core/indexer.cpp:35-271 | The whole run: what is stored and returned is assembled from the entries given and the collections loaded; a failing run stores nothing; an unconfigured root changes nothing |
| RunLaws.FileEntriesAre | src/adapters/file_adapter.cpp:140-215 | After a run, forced or not, the entries of a file are, in the order of its pieces and without those whose embedding is empty, one for each piece with that piece's heading, lines and embedded text, if the run is forced, the file new or its hash another, and it has a piece; otherwise those it had; none if it is gone |
| RunLaws.NoteEntriesAre | src/core/indexer.cpp:78-134 | The entry of a note is the one made of what is stored under its topic, with its time of writing as hash, if the run is forced, the note new or that time another, and none if the embedding is empty; otherwise those it had; none if the note is gone |
| RunLaws.CodeFactsAre | src/core/indexer.cpp:186-225 | The calls, metrics, imports and exports stored for a file read again are those extracted from it, in order: each caller as caller, each callee as callee, under this file; none without a grammar |
| RunLaws.StoredTypesAre | src/core/indexer.cpp:222-224 | So are the type edges read from the database after the run |
| RunLaws.LinksAre | src/core/indexer.cpp:236-264 | The links stored for a markdown file read again are those of its links, in order, that resolve against the scanned paths |
| Indexing.ScanAll | src/core/indexer.cpp:54-135 | Hash maps, both scans, preservation and batch embedding together produce the specified entry list and changed set |
| Indexing.ScanFiles | src/adapters/file_adapter.cpp:124-215 | Chunks of exactly the files to be read again, in walking order; all scanned paths are collected |
| Indexing.ScannedKeys | src/core/indexer.cpp:67-68 | The changed set is the files read again that yield at least one chunk |
| Indexing.ScanNotes | src/adapters/mem_adapter.cpp:14-35 | One chunk for each note whose timestamp differs from the entry's hash |
| Indexing.HashMaps | src/core/indexer.cpp:54-59 | Each path is known by the hash of its last entry |
| Indexing.EmbedPending | src/core/indexer.cpp:105-135 | Embedding in batches appends one entry per chunk whose embedding did not fail, in order, whatever the batch size |
| Indexing.ExtractCode | src/core/indexer.cpp:186-220 | Calls, imports, metrics, exports and types of the changed files are appended, file by file |
| Indexing.ExtractRefs | src/core/indexer.cpp:244-264 | Links of the changed files are resolved against the scanned paths and appended |
| Indexing.EraseKeys | src/core/indexer.cpp:179-185 | Exactly the keys of changed and vanished files are erased |
| Indexing.RemoveCalls | src/core/indexer.cpp:174-178 | Exactly the edges of changed and vanished files are removed |
| RoundTrip.RoundTripIff | src/storage/sqlite_backend.cpp:660-695 | Loading after saving, in any row order, gives the saved data up to the normal form (empty lists dropped, the list of one empty string read back empty, embeddings cut and quantised, rows unordered) if and only if no note source, import symbol or link text holds the separator |
| RoundTrip.CanonicalOfWritten | src/storage/sqlite_backend.cpp:676-695 | Whatever strings the graphs hold, a load in row order gives the saved calls, and the saved keyed graphs, each value after one trip, without their empty lists |
| RoundTrip.TripsTwice | src/storage/sqlite_backend.cpp:447-526 | A second trip through the table changes no import or link further |
| RoundTrip.EdgesOfWritten | src/storage/sqlite_backend.cpp:676-695 | After save_all each kind of row in the shared edge table is exactly that graph's rows |
| RoundTrip.MemReadBackIff | src/storage/sqlite_backend.cpp:309-344 | Notes come back in normal form exactly when no source holds the separator |
| RoundTrip.ImportsReadBackIff | src/storage/sqlite_backend.cpp:440-478 | The same for import symbols |
| RoundTrip.DocrefsReadBackIff | src/storage/sqlite_backend.cpp:483-526 | The same for link texts |
| RoundTrip.IndexReadBack | src/storage/sqlite_backend.cpp:114-286 | Entries come back in order with each embedding as one trip through storage leaves it |
| Backend.Db.SaveAll | src/storage/sqlite_backend.cpp:676-695 | All nine collections in one transaction: whichever statement fails, what a crash leaves is the whole new index or the whole old one |
| Backend.Db.Finish | src/storage/db.cpp:253-270 | Commit makes the work durable, a failed commit or an abandoned transaction rolls back |
| Backend.Db.SaveIndexLocked | src/storage/sqlite_backend.cpp:114-167 | Rows 1..N in entry order, quantised blobs, dim and precision, keyword table rebuilt; nothing else |
| Backend.Db.SaveMetaOnlyLocked | src/storage/sqlite_backend.cpp:177-235 | Metadata rows 1..N; each row gets a stored blob of its (path, line), or none |
| Backend.Db.SaveMemLocked | src/storage/sqlite_backend.cpp:316-329 | The note table becomes exactly these notes; nothing else changes |
| Backend.Db.SaveGlossaryLocked | src/storage/sqlite_backend.cpp:357-367 | The glossary table becomes exactly these terms; nothing else changes |
| Backend.Db.SaveCallGraphLocked | src/storage/sqlite_backend.cpp:405-419 | The call rows are replaced, the other rows of the shared table kept |
| Backend.Db.SaveImportGraphLocked | src/storage/sqlite_backend.cpp:447-463 | The import rows are replaced, one row per import |
| Backend.Db.SaveDocrefGraphLocked | src/storage/sqlite_backend.cpp:490-509 | The link rows are replaced |
| Backend.Db.SaveTypeGraphLocked | src/storage/sqlite_backend.cpp:538-552 | The type rows are replaced |
| Backend.Db.SaveExportStoreLocked | src/storage/sqlite_backend.cpp:582-594 | The export table becomes exactly these pairs |
| Backend.Db.LoadIndex | src/storage/sqlite_backend.cpp:237-286 | Entries in rowid order, blobs decoded |
| Backend.Db.LoadAll | src/storage/sqlite_backend.cpp:660-674 | Every collection as its loader reads it, rows without ORDER BY in any order |
| Backend.Db.LoadImportGraph | src/storage/sqlite_backend.cpp:465-478 | Imports grouped by file, each file's list as a multiset |
| Tables.EdgesOfOthersKept | src/storage/sqlite_backend.cpp:382-396 | Rewriting one graph in the shared table leaves the rows of the other three as they were |
| Tables.InsertNumbers | src/storage/db.cpp:95-99 | Inserting with max+1 into rows 1..n makes row n+1 |
| Tables.ScanNumbered | src/storage/sqlite_backend.cpp:255-257 | Reading by rowid gives back the order of insertion |
| MetaSaves.BlobsAfterMetaSaves | src/storage/sqlite_backend.cpp:177-235 | After any number of metadata-only saves of any entry lists: a row whose (path, line) has been present since the full save carries a blob that save wrote under it, any other row none |
| MetaSaves.SurvivorKeepsBlob | src/core/operations.cpp:42-67 | Over any run of note adds and removes every (path, line) never removed keeps, byte for byte, an embedding of the full save, the entry's own if its (path, line) was the only one; a note added again in place included |
| Survivors.ConfigurationStays | src/core/operations.cpp:53-66 | From any moment at which an index of a positive dimension is fully saved, through any interleaving of adds, removals, failures and reindexes under the same configuration, dimension and precision stay those of that index, in the database and in what is published |
| Survivors.SurvivorReadBack | src/storage/sqlite_backend.cpp:169-225 | And as long as the index holds an entry, and no other with its path and line, the database has a row for it, and each row of its path and line is its own and is read back, by the dimension and precision then stored, as one trip of its embedding through storage |
| Survivors.SparedIsHeld | src/core/operations.cpp:53-128 | An entry is so held as long as no job adds or removes its own note or file and none is a reindex, whatever other notes and files are added or removed |
| Survivors.FullSaveArises | src/storage/sqlite_backend.cpp:114-167 | A reindex of a configured root, and the removal of a file, save the index fully; a reindex under its own dimension and precision |
| MetaSaves.StaleBlobArises | src/core/operations.cpp:42-67 | A note added again: its published entry has the new embedding, its stored row the new hash and the old embedding |
| MetaSaves.NewNoteHasNoBlob | src/storage/sqlite_backend.cpp:223-227 | A note added since the full save, or removed and added again, has a null blob |
| MetaSaves.OpsKeepUnique | src/core/operations.cpp:42-67 | Note jobs keep (path, line) unique, notes being on line 0 and files' chunks on lines from 1 |
| Separators.SplitJoinIff | src/storage/sqlite_backend.cpp:32-55 | A list survives being stored as one string exactly when no element holds the separator and it is not the list of one empty string |
| Separators.JoinSplit | src/storage/sqlite_backend.cpp:32-55 | Any stored string, split and joined again, is itself |
| Separators.SplitSep | src/storage/sqlite_backend.cpp:32-46 | The splitting loop computes the parts between separators |
| Separators.JoinSep | src/storage/sqlite_backend.cpp:48-55 | The joining loop computes the separated concatenation |
| Grouping.GroupFlatten | src/storage/sqlite_backend.cpp:447-478 | Writing a keyed collection row by row and grouping the rows drops empty lists and nothing else |
| Grouping.GroupPermuted | src/storage/sqlite_backend.cpp:465-478 | Row order affects only the order inside each list |
| Keywords.KeywordSearch | src/storage/sqlite_backend.cpp:746-774 | The best `limit` rows of the engine for the built expression, as distinct positions rowid-1; nothing for no terms or no limit |
| Keywords.HitDenotesEntry | src/storage/sqlite_backend.cpp:750-770 | In an aligned database hit h is published entry h, with the path and chunk the keyword table has for it |
| Keywords.AlignedHitsCreditOwn | src/core/searcher.cpp:76-98 | Hits within their index never stray, whichever indexes are searched together, so every entry is credited by its own index only |
| Affected.Walk | src/mcp/mcp_server.cpp:449-474 | Terminates on any names; every key reported is that of a node, not a seed, reached from a seed within the bound along importers and never through a non-seed node of more than 40; and if keys tell the nodes in reach apart, the keys reported are exactly those of the nodes whose shortest such path has length 1 to the bound, and the depth recorded is that length |
| Affected.WithinIff | src/mcp/mcp_server.cpp:449-474 | A node is in reach exactly when a chain of at most so many imports leads to it from a seed inside one index, each file on the way but the seed imported by at most 40 files |
| Affected.DependentIff | src/mcp/mcp_server.cpp:449-474 | The nodes to report are those in reach that are no seeds |
| Affected.FollowImporters | src/cli/cmd_calls.cpp:387-393 | The importer loop keeps the record sound and closes the dequeued node |
| Affected.RecordedAreDistances | src/mcp/mcp_server.cpp:459-474 | Where keys tell the nodes in reach apart, a closed record holds exactly the shortest distances up to the bound |
| Affected.MetWithin | src/mcp/mcp_server.cpp:459-474 | There every node within reach has been met at no more than its distance |
| Affected.KeysInjectiveIff | src/mcp/mcp_server.cpp:468-468 | Keys tell all nodes apart exactly when no index name extends another by a colon |
| Affected.UnambiguousDistinguish | src/mcp/mcp_server.cpp:449-474 | Index names none of which extends another by a colon suffice |
| ImportGraphs.ImportedBy | src/storage/import_store.cpp:20-63 | Exactly the files with an import that matches the path, each once |
| ImportGraphs.MatchesOnLastTwoSegments | src/storage/import_store.cpp:48-57 | A file in a directory is matched by an import with a directory, either with or without an extension and whatever stands further left, exactly when base names and the directories just above agree (for an import of one leading slash its base name stands for the directory) |
| ImportGraphs.DirectoryNeeded | src/storage/import_store.cpp:48-57 | It is matched by no import without a directory |
| ImportGraphs.BareMatches | src/storage/import_store.cpp:48-57 | A bare file name is matched by any import exactly when the base names agree |
| ImportGraphs.UnnamedDirectory | src/storage/import_store.cpp:48-57 | So is a path with two slashes before its name |
| ImportGraphs.ParentOf | src/storage/import_store.cpp:41-47 | The parent of a path is the name of the directory just above; where the only slash is the first character it is the rest of the path |
| ImportGraphs.RootedMatches | src/storage/import_store.cpp:48-57 | A path whose only slash is its first character is matched exactly by imports of its base name from a directory of that name or from the root, and so not by its bare name |
| CallTree.Walker.Collect | src/mcp/mcp_server.cpp:291-304 | The recursive walk with its shared visited set and output computes the specified trail, on cyclic graphs too |
| CallTree.Tree | src/cli/cmd_calls.cpp:56-94 | The report of one direction from a root |
| CallTree.ReportSound | src/mcp/mcp_server.cpp:291-304 | At every depth: no name twice, never the root, each at a level within the bound with a call chain of exactly that length |
| CallTree.ReportedIsRecorded | src/mcp/mcp_server.cpp:291-304 | Each call printed is one recorded in the graphs in the direction asked for, with its file, line and graph |
| CallTree.FaithfulIffGraded | src/mcp/mcp_server.cpp:291-304 | For every order of the edges the report holds exactly the names within the depth, each at its distance from the root, if and only if any two chains from the root within the depth that meet no name twice and end at one name are of one length |
| CallTree.ReportComplete | src/mcp/mcp_server.cpp:291-304 | With a depth of at least the number of names every reachable name but the root is reported |
| CallTree.TreeComplete | src/core/call_graph_query.cpp:26-63 | The same on stored graphs in which keys tell the names of neighbours apart |
| CallTree.SmallDepthLoses | src/mcp/mcp_server.cpp:291-304 | A graph on which depth 2 loses a name two calls away |
| CallGraphs.Find | src/core/call_graph_query.cpp:26-63 | The neighbours of a name over all graphs, first hit of each (name, file) key |
| CallGraphs.EdgesNames | src/core/call_graph_query.cpp:26-63 | Each edge found is one recorded next to the name in the direction asked for, with its file, line and graph; and each recorded neighbour is found, if keys tell the names of neighbours apart |
| CallGraphs.TabFreeTells | src/core/call_graph_query.cpp:26-63 | They do wherever names hold no tab |
| Connections.Converse | src/daemon/rpc_v2.cpp:145-171 | Any interleaving of sends and receives in both directions, under any short reads and writes, delivers to each side exactly what the other sent; with no empty message the conversation breaks exactly when a read or write fails, and then what arrived is still a prefix; the nonces that messages were sealed under in each direction are a counter from the first modulo 2^192, none used twice within 2^192 messages |
| Connections.Direction.Send | src/daemon/rpc_v2.cpp:145-155 | The message joins those in flight; on success the wire gains exactly its frame, sealed under the send nonce as it was, which joins the nonces used and is stepped once |
| Connections.UsedOnce | src/daemon/rpc_v2.cpp:145-155 | The nonces a direction has sealed under, failed writes included, are a counter from the first modulo 2^192, and so none is used twice within 2^192 messages |
| Connections.Direction.Receive | src/daemon/rpc_v2.cpp:157-171 | A message received is the oldest in flight; the receive nonce tracks the peer's |
| Framing.Channel.FrameWrite | src/daemon/rpc_v2.cpp:40-44 | On success exactly the frame has been written |
| Framing.Channel.FrameRead | src/daemon/rpc_v2.cpp:50-58 | Reads what the stream announces, or nothing |
| Framing.Channel.RawWrite | src/daemon/rpc_v2.cpp:16-25 | Everything, or a proper prefix and failure |
| Framing.Channel.RawRead | src/daemon/rpc_v2.cpp:27-36 | Exactly the bytes asked for, or failure |
| Framing.FrameRoundTripIff | src/daemon/rpc_v2.cpp:40-58 | A frame is read back whole, leaving what follows, exactly when it is within 64 MB |
| Framing.FrameLayout | src/daemon/rpc_v2.cpp:40-44 | A frame is the length in four bytes, the lowest first, and the message |
| Nonces.Increment | src/daemon/rpc_v2.cpp:125-129 | The in-place carry loop computes the next nonce |
| Nonces.NextCounts | src/daemon/rpc_v2.cpp:125-129 | The nonce is a little-endian counter: one more, or zero after the last |
| Nonces.NonceRepeatsIff | src/daemon/rpc_v2.cpp:125-129 | A nonce comes back after one whole round of the counter and not before |
| Nonces.NoNonceReuse | src/daemon/rpc_v2.cpp:125-129 | The counter does not come back within 2^192 steps |
| Nonces.AdvanceWraps | src/daemon/rpc_v2.cpp:125-129 | After any number of steps its value is that many more, modulo its range |
| Handshake.HandshakeAgrees | src/daemon/rpc_v2.cpp:185-275 | Both sides accept or both reject, exactly when keys agree; each then expects the nonce the other sends first |
| Handshake.HelloLayout | src/daemon/rpc_v2.cpp:185-215 | What a client sends first: version 1, whether it asks for encryption, the name after its length, and its nonce, or zeros without encryption |
| Search.Search | src/core/searcher.cpp:15-116 | The results are the best of the matching entries by the fused score, over a ranking by cosine; a negative top_k throws |
| Search.BestMeans | src/core/searcher.cpp:106-116 | min(top_k, matching) distinct matching entries, sorted, and no omitted one outscores a returned one |
| Search.KindsFound | src/core/searcher.cpp:36-45 | A search for everything, for files, for notes or for anything else returns min(top_k, how many there are) entries of that kind, for anything else none |
| Search.CosinePass | src/core/searcher.cpp:63-67 | The in-place pass gives each position its reciprocal cosine rank |
| Search.KeywordPass | src/core/searcher.cpp:83-95 | The in-place pass adds each hit at offset plus hit, guarded only by the whole array |
| Search.ScoreFormula | src/core/searcher.cpp:63-98 | In any search whose lists repeat no hit and stray with none, the score of an entry is exactly 1/(61+cosine rank), plus 1/(61+keyword rank) if its own index's list has it |
| Search.BetterRanksScoreNoLower | src/core/searcher.cpp:63-98 | There an entry ranked no worse on both lists never scores lower, whichever indexes the two come from |
| Search.CreditsOwnIff | src/core/searcher.cpp:83-96 | In every search, each entry gets the keyword credit of the index that holds it and no other exactly when no hit strays past its index |
| Search.SegmentsTile | src/core/searcher.cpp:76-98 | The offsets a search works with put the indexes one after the other over all its entries, whatever the names |
| Search.TileCovers | src/core/searcher.cpp:76-98 | So each position lies in exactly one of them |
| Search.SegmentHoldsIndex | src/core/searcher.cpp:76-93 | Each searched index's entries lie where its offset says |
| Search.StrayHit | src/core/searcher.cpp:83-87 | In a search of two indexes with one entry each, hit 1 of the first is credited to the entry of the second |
| Packing.EmbedBatch | src/embedding/embedder.cpp:148-226 | Consecutive batches within both limits, as few as any such partition; each text gets the vector of its own tokens at the positions 0, 1, 2 and so on, or none where it is empty or too long, encoding fails, or yields none for it |
| Packing.GreedyIsFewest | src/embedding/embedder.cpp:152-166 | No consecutive partition obeying the limits uses fewer batches than the greedy one |
| Packing.GreedyMonotone | src/embedding/embedder.cpp:152-166 | A greedy partition that starts later never needs more batches |
| Packing.Pack | src/embedding/embedder.cpp:153-166 | The batch extends as far as the limits allow; it is empty exactly for an oversize text |
| Packing.Fill | src/embedding/embedder.cpp:178-194 | Exactly the allocated slots are filled |
| Packing.BatchSeparates | src/embedding/embedder.cpp:181-193 | Under its own sequence id each text of a batch is seen whole, in order and unmixed, its positions counted from 0 |
| Packing.FitsIff | src/embedding/embedder.cpp:153-166 | A batch is at most eight texts, and as many slots as the context has |
| Half.TruncatedTowardZero | src/storage/index_file.cpp:24-51 | In [2^-14, 2^16) a value is cut toward zero, losing less than 2^-10 of itself |
| Half.FlushedToZero | src/storage/index_file.cpp:30-30 | Below 2^-14 it becomes a zero of the same sign |
| Half.Overflows | src/storage/index_file.cpp:31-31 | From 2^16 on it becomes an infinity of the same sign |
| Half.HalfRoundTripIff | src/storage/index_file.cpp:24-51 | A half survives the trip through a float exactly when it is neither a nonzero subnormal nor a NaN |
| Half.BackExactIff | src/storage/index_file.cpp:24-51 | A float comes back from a half unchanged exactly when it is a zero, an infinity, or in the normal range of halves with at most ten fraction bits |
| Half.SurvivesIff | src/storage/sqlite_backend.cpp:141-157 | A vector survives storage exactly when it has dim components, or none, and under F16 each of them is such a float |
| Half.F16LosesPrecision | src/storage/sqlite_backend.cpp:143-149 | A vector that does not: the float next above 1.0 |
| Half.NormalRangeIff | src/storage/index_file.cpp:28-31 | The exponent tests are exactly the bounds 2^-14 and 2^16 |
| Half.ManyTripsAreOne | src/storage/sqlite_backend.cpp:141-154 | Saving and loading any number of times is doing it once, for every vector, dimension and precision |
| Half.DotMovesLittle | src/storage/index_file.cpp:24-51 | No dot product moves by more than the sum of abs(q_i) times the larger of 2^-10 abs(x_i) and 2^-14 |
| Half.Save | src/storage/sqlite_backend.cpp:141-157 | What is bound for an embedding: nothing if shorter than dim, otherwise dim components, halved under F16 |
| Half.Load | src/storage/sqlite_backend.cpp:265-280 | What is decoded of a blob, by the precision stored beside it when it is read: dim components, zero where no data is stored |
| Half.HalvesMisread | src/storage/sqlite_backend.cpp:265-280 | Halves read as floats: two of them make one component, and the second half of the components is 0 |
| Half.FloatsMisread | src/storage/sqlite_backend.cpp:265-280 | Floats read as halves: each component is two bytes of a float taken for a half |
| Chunking.ChunkLines | src/chunking/chunker_iface.cpp:34-77 | The line loop computes the specified chunks |
| Chunking.ChunksTile | src/chunking/chunker_iface.cpp:34-77 | For a pattern that does not match the empty line the chunks tile the lines: at most one matching line per body, always first; it gives the number and the heading, which is the line up to its first bracket, if any, without trailing spaces |
| Chunking.HeadingIsOne | src/chunking/chunker_iface.cpp:51-53 | Each line has one such heading |
| Chunking.ConservesIff | src/chunking/chunker_iface.cpp:66-67 | The chunks' bodies joined by newlines are the text of the file without its leading newlines and one final newline, for every file, exactly when the pattern does not match the empty line |
| Chunking.LosesBlankLine | src/chunking/chunker_iface.cpp:66-67 | A pattern that matches the empty line loses a blank line |
| Chunking.ChunkWindow | src/chunking/chunker.cpp:67-86 | The loop computes the specified windows and terminates for window > overlap |
| Chunking.WindowsConserve | src/chunking/chunker.cpp:67-86 | The first window-overlap characters of each chunk concatenate to the text |
| Chunking.WindowAt | src/chunking/chunker.cpp:75-83 | Chunk k starts k steps in and carries one more than the number of newlines before it |
| FtsQuery.MatchMeansTerms | src/storage/sqlite_backend.cpp:718-743 | By the string grammar of FTS5 (section 3.1 of its documentation) the built expression is an alternative of exactly the query's terms, for every query |
| FtsQuery.BuildMatch | src/storage/sqlite_backend.cpp:718-743 | The building loop prints the query's words of at least two characters |
| FtsQuery.TermIff | src/storage/sqlite_backend.cpp:722-729 | A term is exactly a stretch of at least two characters between two blanks, or the ends, of the query |
| FtsQuery.QuotesAreTerms | src/storage/sqlite_backend.cpp:729-729 | A query of quotes only is therefore a term of its own, unless it is a single quote |
| Debounce.FireIsDue | src/daemon/file_watcher.cpp:41-66 | A fire follows a scan at which the index's last mark was settled, and each scan's decision fires once |
| Debounce.MarkNotLost | src/daemon/file_watcher.cpp:44-60 | In every timed run a mark not yet followed by a fire is pending, itself or a later one, or about to fire: also one made between sample and lock or after erasure |
| Debounce.FiresWhenQuiet | src/daemon/file_watcher.cpp:41-66 | Once marks stop, a late enough sample and one more round make the index fire |
| Debounce.SettledIff | src/daemon/file_watcher.cpp:49-54 | For a positive debounce settled means at least that old; for zero or less, truncation also admits a mark just under a millisecond later |
| Debounce.RelevantIff | src/daemon/file_watcher.cpp:74-85 | Without a name, or for an index that watches all files, every change counts; otherwise exactly that of a file that is not hidden and whose part after the last dot is one of the index's extensions |
| Debounce.Watcher.MarkChanged | src/daemon/file_watcher.cpp:68-88 | Records the time for a watched directory and relevant file name, and nothing otherwise |
| Debounce.Watcher.Scan | src/daemon/file_watcher.cpp:46-61 | Collects and erases exactly the indexes whose mark is old enough by their own debounce, if they have one, or the common one |

## Left out

- Tree-sitter chunking and extraction, markdown chunking, the language model, the SQLite and FTS5 engines and the cipher: foreign code, taken as arbitrary functions or an abstract table.
- Sockets, fork and exec, inotify and FSEvents, directory scanning and timestamps: a tree is a map from path to hash and content, read without changing during one run.
- Command line, output formatting, configuration parsing, session cursors, tool registry, `explore`, `metrics` and `list`: plumbing.
- Glossary enrichment of chunk text and splitting of identifiers: one arbitrary function of path, chunks and glossary; a regular expression is an arbitrary predicate on lines.
- Seed matching of `affected` (`src/mcp/mcp_server.cpp:421-447`) and its file-name filter: the walk starts from given seeds.
- Affected.Walk: is exact only where keys tell the nodes in reach apart; otherwise only the soundness of what is reported is claimed. `Affected.KeysInjectiveIff` and `Affected.UnambiguousDistinguish` say which names suffice.
- CallTree.TreeComplete: requires that keys, which join name and file by a tab, tell the names of neighbours apart.
- Rebuild.IncrementalFactsAreRebuilt: claims nothing about exports and types, which a non-forced run does not reload, nor about the order of rows inside a file, which the database does not fix.
- Rebuild.IncrementalIsRebuildIff: with failing embeddings assumes that all runs had one glossary, because which embeddings fail then depends on the file alone; no file added whole has the hash 0. Scanned paths are distinct; nested configured roots are not modelled.
- DaemonLaws.DaemonIsRebuildIff: the chunkers, extractors and model are the same in all reindexes of the index.
- Indexing.RunIndex: a file is read once; a file changed between the scan and the extraction of one run is not modelled.
- DaemonLaws.DatabaseAgrees: a failure after a save has committed (only an allocation failure in publishing) is not among the steps.
- DaemonLaws.ReadYourWrites: for terms and for jobs that touch no entries the statement is `DaemonLaws.NoLostUpdate`, the fold containing the job.
- Protocol.StepKeeps: a query's later read of the keyword table is not tied to the snapshot it holds while a job runs; the statement about hits is for idle indexes.
- Shutdown.ShutdownFromFlag: assumes that the main thread is scheduled until it waits; `Shutdown.OnlyWatcherNeverEnds` shows that something of the kind is needed. Both worker queues are assumed to see their stop flag as false at first: the source starts each thread before that field, declared after it, is initialised.
- Shutdown.NoDeadlock: a job or request does finitely many steps of its own; the embedding model returns from every call and does not throw on the worker thread.
- RoundTrip.RoundTripIff: integer columns are unbounded; the casts between unsigned fields and 64-bit columns are lossless and not written out.
- Survivors.ConfigurationStays: is about indexes of a positive dimension; one without any embedding takes the dimension of the first one added.
- MetaSaves.SurvivorKeepsBlob: where several entries of the full save share a (path, line), the blob kept is that of one of them.
- CallTree.FaithfulIffGraded: is about all orders of the edges; for one given order whether a name within the depth is lost depends on what was visited before, which `CallTree.Visit` computes.
- Keywords.KeywordSearch: the ranking itself is the engine's.
- Search.Search: float rounding, staleness marks and snippets are not modelled; ties may come out in any order.
- Packing.EmbedBatch: tokenisation and the cut at 2048 tokens come before it; the pooling of the model is an assumption about it.
- Connections.Converse: the random choice of nonces and the handling of keys are not modelled.
- Half.Load: units are of two bytes, low half first, as on a little-endian host; blobs of an odd number of bytes, which no saver writes, are not modelled.
- Half.DotMovesLittle: over reals; the rounding of the sum itself is not modelled.
- Debounce.FiresWhenQuiet: that the loop keeps running while it is watching is an assumption on the run given.
- FtsQuery.MatchMeansTerms: NUL characters are not modelled.
- The store's remaining queries (`files_importing_symbol`, `references_of`, counts, schema version) and `op_get`: they would add only easy members.

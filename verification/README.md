# Sync, track and flush: a verified model of tiny-file-watcher's server

The server keeps a relational store of machines, watchers, watched files and redirections. A *sync*
lists the rows of a watcher, walks its source directory on a remote machine, and writes the difference
back in two separate statements, additions first. A *flush* copies every unflushed file of a watcher to
its redirection target and then marks all listed rows in one statement. Syncs of one watcher exclude
each other by a try-lock per watcher name; flushes and operator commands take no lock, and the table of
watched files has no uniqueness constraint. This project models that pipeline and proves what holds of
every call, every history and every interleaving.

| module | what it holds |
|---|---|
| `Paths` | `Clean`, `Dir`, `Base`, `Join` on Unix paths, and when a path survives being stored as (Dir, Base) |
| `GoSet` | the generic set with its own size counter |
| `Schema`, `Integrity`, `Statements` | the four tables, every statement with its cascades and its checks, referential integrity, and each statement told in rows and columns |
| `PendingView` | the five-table view as nested loops, and the filter it amounts to |
| `Database` | the repository layer: placeholders, flat argument lists, id arithmetic, SET lists |
| `Reachability`, `Walk`, `Disk` | the work list of overlapping walkers, for any walker and for error-free ones |
| `Sync`, `SyncLaws`, `SyncRows`, `FileRoot` | the sync job as a class against its specification `SyncOutcome`, the laws of that specification, the same told in rows, and the disk that breaks them |
| `Streaming`, `Locks`, `Calls`, `Service` | the unary and the streaming entry point, the per-name locks, and what a caller is told |
| `Protocol`, `ProtocolLaws` | the running server as a state machine over all interleavings: invariant, locks, convergence |
| `Steps`, `Operators` | refusals, failures and what is over; creations, renames and deletions in the middle of a run |
| `FlushRuns`, `Overlap` | what goes wrong outside the protocol, and exactly when: a flush over reused ids, a job without the lock |
| `OneFileServer`, `ReusedIds`, `SelfCopy` | the runs themselves, from a small server that has just started |
| `Interleaving` | syncs of different watchers under any schedule |
| `Transfer`, `Delivery`, `Flush` | what a flush does to files on values and told in rows, and the job with its connection pool |

Code that works step by step is a class or a method proved against a function of the old state
(`SyncJob.Run` against `SyncOutcome`, `SyncWatcher` against `SyncCall`, `FlushJob.Run` against
`CopyAll` and `Effect`); the laws are then lemmas about those functions. `SoloIsSync`,
`SoloFlushIsFlush` and `StepsAreSync` tie the step-by-step state machines to the same functions. What those
functions do is told once more without them, in rows, columns and paths: `Statements`, `SyncRows`, `Delivery`,
`Operators`, `Steps`, and the predicates `Seen`, `Answers` and `Reports` in the contracts of the methods.

## Hypotheses

- A walker is a finite list of entries, each a path with a name and a kind, or an error. Walkers may show
  one level or many and may overlap; only finitely many directories can be shown (`Walk.Bounded`). The
  disk is fixed during one walk and free to change between walks. An entry with an error is dropped, as
  in server/watcher/sync.go:249-252, so "what the walk accepted" is the notion everything is stated
  for; `Disk.AcceptsDisk` identifies it with the disk when no walker reports an error.
- Walked paths are in the normal form of `filepath.Clean` where a lemma says `AllClean`. What happens
  otherwise is proved too: a run ends as it should if and only if no added path has the stored key of a
  vanished one (`SyncLaws.SyncExact`), and a second run adds exactly the paths that are not clean
  (`SyncLaws.IdempotentIffClean`).
- A run of the server is `Orderly` where a lemma says `AllOrderly`: besides clean walks, the one kind of
  job that takes no lock does not overlap another job of its watcher. `Overlap.WithoutLock` is about
  the runs that do not respect this; the lock discipline holds in them as well.
- Foreign keys are enforced on every connection, with NO ACTION checked at the end of the statement,
  after the cascades (SQLite Foreign Key Support, section 4.3).
- The engine may refuse any statement and a dial may fail: `Env`, `up` and `ok` parameters. The clock
  and the iteration order of Go maps are parameters too; `Sync.OrdersExist` shows such an order exists.
  Every remote file operation of a flush may fail, chosen freely inside the operation.
- Which host a set of connection details leads to is an arbitrary function, so two machine rows may be one
  host. `FlushDelivers` assumes file names without "/", and not "", "." or "..", as directory entries have.

## Where the code and its words differ

- `Run(true)` inserts rows with flushed = true (server/watcher/sync.go:211); the flag's help text says the
  opposite (client/cmd/watcher.go:40). The model follows the code.
- The comment above `ListWatchedFiles` says "unflushed"; the query returns all rows
  (server/database/file_db.go:162-166). The model follows the code.
- Copying a file onto itself empties it: the destination is created before the source is read
  (server/flush/flush.go:157-170), be it through one machine row or through two that lead to one host.
  `Transfer.FlushDelivers` states exactly when content arrives; `SelfCopy.SelfFlushEmpties` is a server on
  which every successful flush empties a file and marks it as flushed.
- Row ids are reused and a flush holds no lock, so a flush can mark a row it never copied.
  `FlushRuns.FlushedOnlyAfterCopy` states two exact conditions. The marked row is the listed one if no insertion
  since the listing gave out its id. The job copied the marked row's own file, while that row was in the
  table, if at the copy the id was that of a row at the listed path and no insertion since the
  copy gave it out. An insertion of n rows gives out i exactly when max < i <= max + n for the largest id then
  present (`FlushRuns.GivesOutExact`), so a flush is right whenever a row with an id at least every
  listed one stays in the table (`FlushRuns.TopRowMakesFlushRight`). In `ReusedIds` there are two runs that go
  wrong, with another file and with the same file come back, and one that goes right because the copy came last.
- The job started when a watcher is created with its existing files takes no lock
  (server/watcher/service.go:89-99). `Overlap.WithoutLock` is about it and a sync of that watcher that both list
  before either adds: whatever the order of their other steps, whatever each walk sees and whichever writes
  fail, they leave duplicate rows exactly when both additions went through and some path was new to both.
  `Overlap.OverlapDistinct` says it of any number of such jobs; `Overlap.DuplicateRow` is a run.
- A source path that names a file and is not in clean form, "./n" say, is tracked and lost in turn:
  the second sync deletes the row it has itself just inserted (`FileRoot.FileRootLost`).
- Reported counts are converted to 32 bits; `SyncLaws.Conservation` states exactly when they are right.

## Model

| member | source | states |
|---|---|---|
| Paths.ResolveCanonical | server/database/file_db.go:85-91 | what `filepath.Clean` leaves is canonical: real names only, and ".." only in front of a relative path |
| Paths.ParseRender | server/database/file_db.go:85-91 | reading a cleaned path gives back the very components it was built from |
| Paths.CleanIdempotent | server/database/file_db.go:85-91 | cleaning twice is cleaning once |
| Paths.CleanDropsDot | server/database/file_db.go:85-91 | a doubled slash and a "." in a path vanish |
| Paths.CleanDotDot | server/flush/flush.go:111-112 | a ".." takes the name before it with it |
| Paths.CleanRootDotDot | server/flush/flush.go:111-112 | a ".." at the top of a rooted path vanishes |
| Paths.DirBaseOfConcat | server/database/file_db.go:85-91 | of a path that ends in a name, Dir is the cleaned rest and Base the name |
| Paths.PathRoundTrip | server/database/file_db.go:85-91 | Join(Dir(p), Base(p)) is p if and only if p is already clean |
| Paths.PathKeyInjective | server/database/file_db.go:138-160 | two clean paths share a stored key exactly when they are the same path |
| GoSet.Set.Add | internal/set.go:16-22 | the element is in, nothing else changes, and the size counter still counts the elements one by one |
| GoSet.Set.Remove | internal/set.go:24-30 | the element is out, nothing else changes, and the counter still agrees |
| GoSet.Set.Clear | internal/set.go:32-35 | empties the set, and the counter agrees again whatever it was |
| GoSet.Set.Size | internal/set.go:37-39 | the counter is the cardinality |
| GoSet.Set.Items | internal/set.go:46-52 | hands out the runtime's iteration order whole: as many entries as the size counter says, each item among them |
| GoSet.ListLength | internal/set.go:46-52 | any repetition-free listing of a set is as long as the set is large |
| Schema.RejectDistinct | server/database/schema.sql:14-43 | deleting rows by one column keeps every other column unique |
| Integrity.ExecExact | server/database/schema.sql:1-43 | a statement is let through by the local key and reference checks if and only if its whole effect, cascades included, leaves all four tables consistent |
| Integrity.AlwaysConsistent | server/database/schema.sql:1-43 | every history of statements, allowed or refused, keeps keys unique and references intact |
| Integrity.DeleteMachineClosure | server/database/machine_db.go:63-67 | deleting a machine removes precisely its watchers, their files and redirections, and is refused exactly when a redirection that would survive still targets it |
| Integrity.RenameRefusedIff | server/database/file_watcher_db.go:90-121 | a rename changes nothing exactly while files or a redirection refer to the old name or the new one is taken; otherwise it changes that one row only |
| Integrity.NumberedDistinct | server/database/file_db.go:106-115 | rows numbered upwards from the largest id present never clash with each other or the rest |
| Statements.InsertMachineRows | server/database/machine_db.go:21-34 | refused when the name is taken; otherwise one new row, with the given columns and the next id |
| Statements.InsertWatcherRows | server/database/file_watcher_db.go:22-37 | refused when the name is taken or the machine is missing; otherwise one new row with the given columns and the next id |
| Statements.InsertRedirectionRows | server/database/redirection_db.go:17-27 | refused when the watcher has one, or watcher or target machine is missing; otherwise one new row with the given columns |
| Statements.DeleteWatcherRows | server/database/file_watcher_db.go:123-133 | never refused; removes precisely the watcher, its files and its redirection |
| Statements.DeleteRedirectionRows | server/database/redirection_db.go:34-43 | removes precisely the watcher's redirection |
| Statements.UpdateRedirectionRows | server/database/redirection_db.go:45-72 | the target path and the time stamp of exactly the watcher's row, every other column kept |
| Statements.DeleteFilesRows | server/database/file_db.go:136-160 | removes precisely the rows with one of the keys |
| Statements.MarkFilesRows | server/database/file_db.go:188-208 | sets the flag of exactly the rows with one of the ids, every other column kept |
| Statements.InsertFilesRows | server/database/file_db.go:93-115 | refused as a whole when a watcher is missing; otherwise one row a tuple, with its columns and consecutive ids from the next one |
| PendingView.JoinOneRow | server/database/schema.sql:45-68 | above an unflushed row with a redirection the joins meet exactly one combination; above any other row, none |
| PendingView.JoinIsFilter | server/database/schema.sql:45-68 | the view is, row for row and in table order, the filter "unflushed and redirected", each result with its own source and target machine |
| PendingView.JoinIsFilterAlways | server/database/schema.sql:45-68 | so it is after every history of statements on a database created empty |
| PendingView.PendingForExact | server/database/file_db.go:210-233 | an entry is in a watcher's listing if and only if it describes a waiting row of that watcher |
| PendingView.ListedColumns | server/database/schema.sql:45-68 | an entry has the columns of an unflushed row, the details of its watcher's machine as source, and path and machine details of its redirection as target |
| PendingView.PendingMachinesAgree | server/flush/flush.go:100-118 | within one listing a machine name stands for one set of connection details |
| Database.BindRowsAppend | server/database/file_db.go:85-94 | reading placeholders left to right with stride five recovers the rows, one more group at a time |
| Database.BindPairsAppend | server/database/file_db.go:144-153 | reading condition placeholders with stride two recovers the keys |
| Database.InsertList | server/database/file_db.go:73-94 | the flat argument list, read back by the driver, is exactly one tuple per path in order |
| Database.InsertedRecords | server/database/file_db.go:106-120 | from the first id on, the i-th record is the row stored for the i-th path |
| Database.DB.BulkAddWatchedFiles | server/database/file_db.go:62-123 | appends one row per path, or nothing with an error; each returned record carries the id and path of the row that stores it |
| Database.DeleteList | server/database/file_db.go:144-153 | the argument list names the watcher and then exactly the keys of the given paths |
| Database.DB.BulkRemoveWatchedFiles | server/database/file_db.go:136-160 | deletes every row with a key of a listed path in one statement, or nothing |
| Database.DB.ListWatchedFiles | server/database/file_db.go:162-186 | all rows of the watcher, in order, with their paths joined back |
| Database.IdList | server/database/file_db.go:194-199 | one placeholder per id; read back, the arguments are the ids in order |
| Database.DB.FlushWatchedFiles | server/database/file_db.go:188-208 | marks exactly the rows with a listed id, all or none |
| Database.MachineSetList | server/database/machine_db.go:75-101 | the SET list, with its key column given twice, overwrites exactly the non-nil fields and the time stamp of any row |
| Database.DB.UpdateMachine | server/database/machine_db.go:69-112 | overwrites exactly the non-nil fields of exactly the named machine, and returns that row |
| Database.WatcherSetList | server/database/file_watcher_db.go:96-110 | the same for watchers |
| Database.DB.UpdateWatcher | server/database/file_watcher_db.go:90-121 | renames or moves exactly the watcher with this id and returns that row; a blocked rename changes nothing |
| Reachability.ReachTransitive | server/watcher/sync.go:225-273 | reachability over directories is transitive, so overlapping walkers reach nothing new |
| Walk.AcceptedSetExact | server/watcher/sync.go:225-288 | the accepted paths form a finite set: those shown, unskipped, by a walker of a reachable directory |
| Walk.ShowsExactly | server/watcher/sync.go:249-257 | a directory is shown by an entry that is a directory and no error |
| Walk.AcceptsExactly | server/watcher/sync.go:275-288 | a path is accepted exactly when a file entry without error is at it, not called ".tfwignore", and no rule of a readable ignore file matches it; a missing or unreadable file has no rules |
| Walk.ScanGrows | server/watcher/sync.go:243-288 | one walker adds exactly its directories, its accepted files, and the untracked ones among them |
| Walk.ScanStartsOnce | server/watcher/sync.go:264-273 | no directory ever gets a second walker |
| Walk.DrainWalker | server/watcher/sync.go:243-262 | draining a walker has the effect of its entries one by one and returns a walker per new directory |
| Walk.SweepDone | server/watcher/sync.go:225-241 | with every started walker drained, directories started = reachable, files recorded = accepted |
| Walk.HandleCurrentPaths | server/watcher/sync.go:225-241 | terminates; one walker per reachable directory; onDisk = accepted paths; added = onDisk minus tracked |
| Disk.SameReach | server/watcher/sync.go:225-273 | error-free walkers of any depth reach exactly the directories of the tree |
| Disk.SeenIsDisk | server/watcher/sync.go:225-288 | with no errors, what the walk sees is the files of the tree that are not called ".tfwignore" and match no rule |
| Disk.AcceptsDisk | server/watcher/sync.go:225-288 | with no errors, the accepted paths are exactly those files; the source may be a file |
| Sync.TrackedMember | server/watcher/sync.go:128-131 | the tracked set is exactly the paths of the watcher's rows |
| Sync.SyncJob.SaveUpdates | server/watcher/sync.go:209-223 | the two writes in order; nothing, the additions, or both reach the table |
| Sync.SyncJob.RemovedFiles | server/watcher/sync.go:150-157 | one reported path per listed row the walk did not accept |
| Sync.SyncJob.Run | server/watcher/sync.go:114-178 | database and answer are those of `SyncOutcome`, whatever fails on the way; a success reports as added exactly the paths seen without a row, as removed those with a row and not seen, and their numbers as 32-bit counts; only LOG events are sent; but for the job of a new watcher it runs while its watcher's lock is held |
| SyncLaws.RemovesExactly | server/database/file_db.go:136-160 | a bulk remove of clean paths hits a row exactly when the row reads back as one of them |
| SyncLaws.DeadExactlyGone | server/watcher/sync.go:150-162 | a row is deleted exactly when its own path was not accepted |
| SyncLaws.FreshNotDead | server/watcher/sync.go:209-223 | what the first write adds the second never removes |
| SyncLaws.AdditionsSpared | server/watcher/sync.go:209-223 | the second write spares what the first has added exactly when no stored keys clash |
| SyncLaws.CleanNeverClash | server/database/file_db.go:85-91 | clean paths never clash |
| SyncLaws.SyncExact | server/watcher/sync.go:114-178 | a successful run leaves the old rows with accepted paths unchanged and in order, plus one row per accepted untracked path, if and only if no added path has the stored key of a vanished one |
| SyncLaws.OthersUntouched | server/watcher/sync.go:114-178 | the rows of other watchers are the same sequence after any outcome |
| SyncLaws.TracksAccepted | server/watcher/sync.go:141-162 | after a sync the watcher tracks exactly the accepted paths |
| SyncLaws.SyncIdempotent | server/watcher/sync.go:141-178 | a second sync of an unchanged disk reports 0 and 0 and leaves the table identical |
| SyncLaws.IdempotentIffClean | server/watcher/sync.go:128-162 | the second sync adds exactly the accepted paths that are not clean, so nothing if and only if all are clean |
| FileRoot.FileRootAccepted | server/watcher/sync.go:243-288 | a walk whose root is a file accepts that path as it was given |
| FileRoot.FileRootLost | server/watcher/sync.go:150-166 | for the source path "./n" the second sync reports one added and one removed and ends with no row at all |
| SyncLaws.ReportIsDifference | server/watcher/sync.go:168-173 | the reported files are the change in the tracked paths, both directions |
| SyncLaws.Conservation | server/watcher/sync.go:168-173 | rows after = rows before + added - removed exactly when no stored keys clash, duplicates at the start included; each count is right exactly below 2^31 |
| SyncLaws.PartialFailureConverges | server/watcher/sync.go:209-223 | if only the removal fails, a retry reaches the table of one uninterrupted run, ids included |
| SyncRows.SyncByRows | server/watcher/sync.go:114-178 | after a success an old row is there exactly when it is another watcher's or its path was seen; every other row is the watcher's, for a seen path without a row, with the flag asked for, this time and an id above all; every seen path has a row |
| SyncRows.FailedSyncByRows | server/watcher/sync.go:209-223 | after a failure every old row is there and any other is one a success would have inserted |
| SyncRows.SyncSucceedsIff | server/watcher/sync.go:114-166 | a sync succeeds exactly when connection and listing do, and each write that has something to do |
| SyncRows.Int32Wraps | server/watcher/sync.go:169-170 | the reported number is congruent to the count and fits 32 bits |
| Calls.CallAnswers | server/watcher/service.go:183-202 | no name, no such watcher, lock held: each refusal exactly then, each without a change; and no refusal when nothing stands against the call |
| Calls.CallReports | server/watcher/service.go:206-216 | a response counts the files it lists, and lists what the walk saw without a row and what had a row and was not seen; in clean form that is the change in the watcher's rows |
| Service.WatcherService.TryAcquireSyncLock | server/watcher/service.go:58-69 | succeeds exactly when the name is free; holds that name and changes no other |
| Service.WatcherService.SyncWatcher | server/watcher/service.go:183-217 | a name that is held is refused as such and nothing changes, as are an empty name and an unknown watcher; a reply counts and lists the change, and the new rows are unflushed; every exit frees the lock it took |
| Service.WatcherService.StreamSyncWatcher | server/watcher/service.go:222-287 | the same refusals; under any pattern of failing sends, the same database change as the unary call; success ends the trace with its one RESULT, which counts and lists the change; failure sends none |
| Protocol.AddedDistinct | server/watcher/sync.go:150-162 | additions no row stands for create no duplicate |
| Protocol.AdminStep | server/database/schema.sql:14-43 | no operator statement, rename or cascade breaks what a running sync or flush relies on |
| Protocol.LocksStep | server/watcher/service.go:58-69 | no step of any run, orderly or not, puts the locks out of order |
| Protocol.InvStep | server/watcher/service.go:183-287 | every orderly step of every job, flush and operator command keeps the invariant |
| Protocol.InvAlways | server/watcher/service.go:183-287 | the invariant holds in every state of every orderly run |
| Steps.StartsIff | server/watcher/service.go:183-202 | a call takes the lock exactly when name, watcher and machine are there and nobody holds the name; otherwise it is over and nothing has changed |
| Steps.ClosedIdle | server/watcher/service.go:198-209 | a call that has returned does nothing any more |
| Steps.OrderlyIff | server/watcher/service.go:89-99 | what a run is assumed to respect, event by event |
| Steps.SoloFreeIsSync | server/watcher/service.go:89-99 | the steps of a job without the lock are the sync that records its rows as flushed, whoever holds the name |
| Steps.FlushFails | server/flush/flush.go:66-95 | a failed listing, copy or mark ends the job and changes nothing else |
| Steps.FailedFlushNeverMarks | server/flush/flush.go:85-91 | after a failed copy the job neither copies nor marks any more, whatever happens in between |
| Operators.OperatorStatements | server/database/machine_db.go:21-112 | operators create, update and delete machines, watchers and redirections, and nothing else |
| Operators.AdminInRun | server/database/file_watcher_db.go:22-133 | in any run the state after an operator's statement has the tables that it leaves, and all else as before |
| Operators.DeleteWatcherInRun | server/database/file_watcher_db.go:123-133 | in any run, after a deletion no row names the watcher and every other row is the same |
| Operators.DeleteMachineInRun | server/database/machine_db.go:63-67 | in any run, a deleted machine's watchers leave no trace and other rows stay, or nothing happens when a redirection from elsewhere targets it |
| Operators.RenameInRun | server/database/file_watcher_db.go:90-121 | in any run, a rename gives exactly that watcher its new name, or does nothing when the name is taken or the old one referred to |
| Operators.DeletedStaysAway | server/watcher/sync.go:209-223 | whatever jobs had listed or walked for it, a deleted watcher leaves no trace until an operator makes one of that name |
| ProtocolLaws.NoDuplicateRows | server/database/schema.sql:26-34 | in every interleaving, jobs of newly created watchers included if they overlap no other job of theirs, no two rows stand for the same path of the same watcher |
| ProtocolLaws.LockDiscipline | server/watcher/service.go:198-209 | in every run, overlapping lock-free jobs included, a name is held exactly when one call is between acquiring and releasing it, and never two |
| ProtocolLaws.Converges | server/watcher/service.go:183-209 | whatever failed or was interleaved before, one uninterrupted successful call leaves the watcher tracking exactly the accepted paths, one row per path |
| ProtocolLaws.SoloIsSync | server/watcher/service.go:183-209 | a call's steps without interruption are the sync job and change nothing else; the lock is free again |
| ProtocolLaws.SoloFlushIsFlush | server/flush/flush.go:66-98 | a flush's steps without interruption copy every listed file and leave nothing pending |
| FlushRuns.OnlyMarksFlush | server/database/file_db.go:188-208 | a row turns flushed only by the mark of a flush job that finished copying and had listed its id |
| FlushRuns.GivesOutExact | server/database/schema.sql:26-34 | a step gives an id to a new row exactly when it is an insertion that goes through and the id is one of the next above the largest present |
| FlushRuns.ThereSinceExact | server/database/schema.sql:26-34 | a row has been in the table, with its id, path and time of detection, in every state since an event exactly when its id was not given out since |
| FlushRuns.WasCopied | server/flush/flush.go:85-91 | every file a job counts as copied it copied at an event of the run, after its listing |
| FlushRuns.FlushedOnlyAfterCopy | server/flush/flush.go:66-118 | in every run, marking follows that same job's copy of the file it listed under the id; the marked row is the listed one exactly when the id was not given out since the listing, and the file copied is that of the marked row exactly when the id was that of a row at the listed path at the copy and was not given out since |
| FlushRuns.TopRowMakesFlushRight | server/flush/flush.go:66-98 | a flush marks only rows it has copied whenever a row with an id at least every listed one stays in the table from listing to mark |
| ReusedIds.ReusedIdMarksWrongFile | server/database/schema.sql:26-34 | for any two distinct clean paths, a run in which one is marked flushed and only the other was copied |
| ReusedIds.ReusedIdMarksUncopiedRow | server/flush/flush.go:85-95 | for any clean path, a run in which its row is marked flushed although the row was inserted after the last copy |
| ReusedIds.ReusedIdMarksCopiedRow | server/flush/flush.go:85-95 | for any clean path, a run in which the listed id was given out and the mark is right, since the copy came after |
| Overlap.WrittenOnce | server/watcher/sync.go:209-223 | rows written on top of a table leave duplicates exactly when a path was written twice |
| Overlap.JobsLeave | server/watcher/service.go:89-99 | any number of jobs that list before any adds, any order of their steps, any failures: the table is the listed rows seen by the walks of those that removed, and one row per untracked path of each that added |
| Overlap.OverlapDistinct | server/watcher/service.go:89-99 | such jobs leave duplicate rows exactly when some path was new to two whose additions went through |
| Overlap.WithoutLock | server/watcher/service.go:89-99 | from every reachable state, a sync and a job without the lock that both list before either adds, in any order of their steps and with any failures, leave duplicate rows exactly when both additions went through and some path was new to both |
| Overlap.DuplicateRow | server/watcher/service.go:82-99 | a run from a started server that ends with two rows for one file |
| Interleaving.OtherStep | server/watcher/service.go:62-69 | a step of one watcher's job does not show in another watcher's rows |
| Interleaving.RunsAlone | server/watcher/sync.go:122-163 | after any schedule each watcher's rows, ids aside, and its job are as if it had run alone |
| Interleaving.SchedulesAgree | server/watcher/sync.go:122-163 | any two schedules with the same turns per job agree for every watcher, ids aside |
| Interleaving.StepsAreSync | server/watcher/sync.go:122-163 | the three steps of one job in a row are the sync job |
| Transfer.PendingIsListing | server/flush/flush.go:100-118 | a listing has one source, one target directory, and names that match their paths |
| Transfer.OverlapIsSelf | server/flush/flush.go:111-113 | a destination that is a pending source is that file's own destination |
| Transfer.OthersKept | server/flush/flush.go:144-182 | a flush changes nothing but destinations, whichever hosts the machine rows lead to |
| Transfer.FlushDelivers | server/flush/flush.go:85-118 | each destination ends with content, mode and time of the last listed file of that name as they were before the flush; the content arrives exactly when the file lay on another host, at another path, or was empty |
| SelfCopy.SelfFlushEmpties | server/flush/flush.go:157-170 | with a redirection to the directory a file lies in, every successful flush leaves it empty and its row marked, whatever the host |
| Transfer.NothingLeftPending | server/flush/flush.go:85-98 | marking the listed ids leaves the watcher with nothing pending |
| Delivery.EntryOf | server/database/schema.sql:45-68 | every unflushed row of a redirected watcher has its entry in the listing, with the columns of its route |
| Delivery.CopyDelivers | server/flush/flush.go:85-118 | the redirection's machine holds, in the target directory under the file's name, what the watcher's machine held at the path of the row, for every file that is the only unflushed one of its name |
| Delivery.OnlyDestinations | server/flush/flush.go:144-182 | a place that is no unflushed file's destination holds what it held |
| Delivery.MarkMarksAll | server/flush/flush.go:93-95 | afterwards exactly the rows of the redirected watcher are flushed in addition, and nothing else has changed |
| Flush.TransferFile | server/flush/flush.go:144-182 | a success is one faithful copy; a failure touches the destination at most |
| Flush.Dial | server/flush/flush.go:124-133 | every connection opened is on record, in order |
| Flush.ClientPool.Get | server/flush/flush.go:120-136 | a client for the requested machine, with the requested details when the pool has met no others for that name; every connection opened since the pool was made is in it, one a machine |
| Flush.ClientPool.CloseAll | server/flush/flush.go:138-142 | closes each connection opened since the pool was made once |
| Flush.FlushJob.TransferAll | server/flush/flush.go:85-91 | a success copies the listed files in order; at a failure only destinations differ |
| Flush.FlushJob.Run | server/flush/flush.go:66-98 | a success delivers the files and marks their rows, told in rows and places, and leaves nothing pending; a failure marks nothing; no other place changes; on every exit each connection the run has opened is closed once, at most one was opened a machine, and with the listed details |
| Flush.FlushService.FlushWatcher | server/flush/service.go:173-192 | answers true exactly when the job succeeded; each connection opened is closed once |
| Flush.FlushService.StreamFlushWatcher | server/flush/service.go:112-147 | the same job; a RESULT is sent only after a success; each connection opened is closed once |

## Left out

- Delivery.CopyDelivers: with several unflushed files of one name the last one listed wins (`Transfer.FlushDelivers`); in rows it is told for the only one of its name.
- Thin repository calls (CreateMachine, DeleteMachine, CreateWatcher, DeleteWatcher, the redirection calls, AddWatchedFile, RemoveWatchedFile, the plain lists): each is one statement; the statements, their refusals and their cascades are in `Schema`, the calls around them would add only easy members.
- Database.DB.ListPendingFlushes: returns the view restricted to one watcher as a value; scanning columns row by row is not modelled.
- Transfer.FlushDelivers: paths are compared as written, so two spellings of one file on a host, through a link or a relative path, count as two places.
- The job of a newly created watcher whose machine has been deleted in the meantime: the code logs and goes on without a machine; in `Protocol` it does not start.
- Overlap.WithoutLock: steps of other jobs and of operators in between the steps of the two jobs are not considered.
- The lookups of a watcher and of its machine before the lock are one step in `Protocol`, and dialling is merged with listing.
- SSH and SFTP dialling, keys, file handles and directories on the target: a machine's files are a map, a dial and a directory creation are steps that may fail.
- A sync's own SFTP connection, which is never closed (server/watcher/sync.go:201-206).
- SQL text, the engine's limits on statement size, and the ceiling of 2^63 - 1 on ids: a statement that exceeds a limit is one the engine refuses.
- Pattern matching of ignore rules: an arbitrary predicate.
- Time stamps are opaque; their rounding to seconds in text and access times of copied files are not modelled.
- Message texts and counts inside LOG events.
- gRPC transport, authentication, sessions, the web interface, the command line, configuration, field validation beyond the empty name, and conversions to wire types.
- The automatic flush mentioned in the repository's documentation: there is no code for it.

# MailFallBack: a verified model of its core services

MailFallBack keeps a local Maildir mirror of mailboxes, an index of the messages in it, and
off-site backups. This project models, in Dafny, the parts of it that are algorithms or protocols,
and proves what they promise for every input, every run and every interleaving of their steps.

| module | models |
|---|---|
| `MailIndex`, `MailIndexRuns` | the reconciliation of the message index with the Maildir tree: one walk, three passes, killed anywhere, run again |
| `CopyTree` | counting, copying with skip-existing, and comparing two directory trees |
| `Migration`, `MigrationLaws`, `MigrationWorker` | moving an account or a user's home to another store: copy, verify, switch, delete, with cancels, crashes and restarts between any two steps; and the code of one attempt |
| `ConfigImport`, `ConfigImportLaws` | inserting a relational export into a database that is not empty, identities found again through natural keys; what the report counts, and which constraints hold throughout |
| `ImapWire` | the search command as text: arguments joined by spaces, and the reader of atoms and quoted strings of section 9 of RFC 3501, escapes included |
| `ImapSearch` | a parser of the search keys of section 6.4.4 of RFC 3501 over what is read, and what the parsed keys mean |
| `RestorePageSearch`, `WorkspaceSearch` | the two encoders of search criteria, one that quotes words as they are and one that sanitizes the query |
| `BackupJobs`, `BackupLaws`, `BackupRuns` | backup workers, the stall watchdog, the boot sweep and crashes over job and policy rows |
| `RateLimit` | the sliding-window log of the rate limiter |
| `QuarantineNames`, `Quarantine` | names of folders that vanished at the source, and their move into the container |
| `Locator` | finding an indexed file on disk again after renames |
| `Recovery` | the mail root inside a restored tree, and the directory a deletion removes |
| `MimeParts` | numbering MIME parts, and finding a part by its number |
| `MailboxStatus` | the status ladder next to the guards of the agent's sync trigger |
| `Decimal`, `Wrappers` | decimal numbers, options, picking an element of a set |

Code that changes rows, files or registries is a class whose methods change fields; loops of the
source are loops. Each is proved against a specification stated without the lookup tables,
accumulators or loops of the code, and the lemmas reason about that specification. The migration
and the backups are state machines over their committed steps, because what matters there is what
may fall between two of them; the classes `MigrationWorker.Migrator` and `BackupJobs.BackupService`
hold the code and are proved to take exactly those steps.

## What turned out not to hold

Where the code does not keep a promise, the model keeps the code, a lemma gives an input or a run,
and another lemma gives the exact condition.

- An account migration that crashes after the pointer is committed deletes the only copy when it is
  resumed: the source path is read again and is then the target (`Migration.CrashAfterSwitchLosesMail`).
  An attempt that completes keeps the mail exactly when `maildir_path` was not the target at its start
  (`Migration.CompletedAttempt`). Homes do not have this fault (`Migration.HomeNeverLosesMail`). Whether every
  file also keeps its content is settled step by step: mail is lost exactly when the worker deletes a mail in
  the directory the row names, or switches to one that holds something else under a mail's name
  (`Migration.StepIntact`, `Migration.RunIntact`); for homes only the latter remains (`Migration.HomeIntact`).
- Counting files does not notice a file that met a directory of its name (`CopyTree.ClashFoolsCounting`);
  without such a clash it is exact (`CopyTree.CountingSuffices`). Contents agree exactly when nothing
  different stood at the target before, since existing files are skipped (`CopyTree.ContentsAgree`).
- The restore page puts the words of a query between quotes as they are. Its command asks for exactly what
  was wanted if and only if no date has a year before 1000 and the query has nothing but whitespace and ASCII
  characters other than NUL, the quote and the backslash (`RestorePageSearch.LineCompiles`). The word `"hi"`
  with its quotes makes the whole command unreadable (`RestorePageSearch.QuotedWordFails`); a backslash
  before a quote makes it ask for another word (`RestorePageSearch.EscapedQuoteMisreads`). The workspace
  search sanitizes its query: what is left is asked for exactly, unless it has a character that is not ASCII
  (`WorkspaceSearch.SearchArgs`).
- A job closed as stalled whose worker succeeds after all ends as completed with its failure kind, and with
  the watchdog's marker on its policy when the worker's session has no error to clear
  (`BackupRuns.ReapedJobCompletes`, exact condition in `BackupRuns.KindIsFinal`). The late failure of a
  reaped run turns the success of a newer run into a failure without an error text, although the comment
  in `_close_job` says a newer successful run is never clobbered (`BackupRuns.LateFailureClobbers`, exact
  condition in `BackupRuns.OnlyWorkersClobber`). A policy can be marked completed while a job of it runs
  (`BackupRuns.OverlapHidesRun`). A step does that exactly when a worker ends, or finds no account, while
  another job of the policy runs, or when a sweep closes one running job of a policy marked running and
  spares another (`BackupRuns.StepExact`); the mark is right throughout a run exactly when no step of it
  does (`BackupRuns.PolicyMirrorsJobs`), and none does as long as runs of a policy do not overlap
  (`BackupRuns.NoOverlapMirrors`).
- A message indexed under a name without ":2," is lost to the locator when it gets its first flags,
  although `maildir_filename_prefix` says the prefix stays put (`Locator.FirstFlagsLoseTrack`, exact
  condition in `Locator.SamePrefix`).
- A folder name with a newline, or an empty one, is not read back from its quarantine name; every other
  one is (`QuarantineNames.NameReadsBack`).
- Deleting a recovery removes its wrapper directory exactly when no directory between the wrapper and the
  mail root starts with "<account>-" (`Recovery.TargetIsWrapper`).

## Model

| member | source | states |
|---|---|---|
| MailIndex.MailIndex.UpsertMessageSet | src/mailfallback/services/index_service.py:297-500 | one walk and three passes leave every row as a scan from scratch would have it; no row is removed; the returned count is the number of re-reads, new rows, merges, moves, revivals and deletions; the log holds one state for each write counted, the last of them the result, and every one is midway between the old rows and the result |
| MailIndex.LoadTables | src/mailfallback/services/index_service.py:326-346 | the two lookup tables and the pending set describe exactly the stored rows |
| MailIndex.WalkFiles | src/mailfallback/services/index_service.py:348-422 | after the walk the accumulators hold what a scan of the files says: hashes and files seen, the first new place of each known hash, the Bcc of its copies, and the rows with late recipients filled in |
| MailIndex.MergeDuplicates | src/mailfallback/services/index_service.py:426-440 | a row is written exactly when a copy on disk has a Bcc address the row lacks; stored addresses come first, missing ones follow in order |
| MailIndex.Relocate | src/mailfallback/services/index_service.py:446-475 | a row is written exactly when its file is gone or it was marked deleted; it then points at a walked copy and is alive |
| MailIndex.RelocateOne | src/mailfallback/services/index_service.py:449-473 | the defensive skip is dead code: a seen hash whose pointer is stale always has a relocation recorded |
| MailIndex.SoftDelete | src/mailfallback/services/index_service.py:477-497 | exactly the alive rows whose hash no walked file has are marked deleted |
| MailIndex.VisitWalked | src/mailfallback/services/index_service.py:355-422 | one more file keeps the accumulators equal to what the scan of the files so far says, for known files, copies of known messages, new and unparseable files alike |
| MailIndex.RelocationTarget | src/mailfallback/services/index_service.py:387-393 | a recorded relocation names the first walked copy outside the stored place |
| MailIndex.FirstCopyMeans | src/mailfallback/services/index_service.py:387 | the first copy outside given places exists exactly when some copy lies outside them, and is one |
| MailIndexRuns.AliveIsScan | src/mailfallback/services/index_service.py:326-497 | after a walk the alive rows are exactly the hashes of parseable files on disk, each alive row points at a file on disk with its hash, and no row is gone |
| MailIndexRuns.PointersStay | src/mailfallback/services/index_service.py:442-471 | a pointer changes only when its file vanished, and then to another copy on disk |
| MailIndexRuns.NewRowAsParsed | src/mailfallback/services/index_service.py:401-412 | a new row has the place, the To and the Cc of the first readable copy walked, starts with its Bcc, is alive and not pending |
| MailIndexRuns.OldRowHeaders | src/mailfallback/services/index_service.py:359-377 | an old row keeps its To and Cc and starts with its Bcc, unless it was pending and its file was met: then it is no longer pending and has those of its file |
| MailIndexRuns.MidwayGrounded | src/mailfallback/services/index_service.py:363-377 | every state a killed walk can leave meets the precondition of the next walk |
| MailIndexRuns.KilledWalkConverges | src/mailfallback/services/index_service.py:420-475 | a walk killed anywhere and run again, meeting the same files in any order, ends with the rows and the alive set of an uninterrupted one |
| MailIndexRuns.BccElsewhereKept | src/mailfallback/services/index_service.py:387-392 | after a walk a row has the Bcc of every copy other than the one its pointer names, whatever was pending |
| MailIndexRuns.SecondRunWritesNothing | src/mailfallback/services/index_service.py:359-377 | on an unchanged tree, walked in any order, the second walk writes nothing if nothing was pending at the start |
| MailIndexRuns.ThirdRunWritesNothing | src/mailfallback/services/index_service.py:359-377 | on an unchanged tree, walked in any order each time, the third walk writes nothing, whatever was pending |
| MailIndexRuns.BccIsLossless | src/mailfallback/services/index_service.py:387-392 | each alive row carries the Bcc of every copy on disk, the invariant survives relocation, and the Bcc of a row that is not pending only grows, at its end |
| MailIndexRuns.HistorySound | src/mailfallback/services/index_service.py:354-497 | over any history of disk changes, finished and killed walks, rows stay anchored to content with their hash, Bcc is kept, every row that is not pending has the To and Cc of one content with its hash, and no row is removed |
| MailIndexRuns.FinishedWalkIsExact | src/mailfallback/services/index_service.py:354-497 | in any such history from an empty index, a finished walk leaves exactly the mail on disk, Bcc complete |
| CopyTree.Prescan | src/mailfallback/services/migration_worker.py:14-32 | the number of files below a directory, at any depth, and the sum of their sizes |
| CopyTree.Copier.CopyFile | src/mailfallback/services/migration_worker.py:65-72 | a file is copied exactly when nothing stands at its place; the counters and the callback move either way |
| CopyTree.Copier.CopyTree | src/mailfallback/services/migration_worker.py:35-72 | existing files are untouched, every new file comes from the source and is in a directory; it is done exactly when no directory it needs is a file at the destination and no callback sees the cancel flag; then exactly the directories of the source and those above the destination were added, all source files are there unless a directory stood in the way, and the counters, which rise by one file at a time, end at the prescan; a cancel stops at the first callback that sees the flag |
| CopyTree.EntryCopied | src/mailfallback/services/migration_worker.py:57-72 | copying one more entry keeps the destination a growth of what it was, and complete for the entries so far |
| CopyTree.VerifyCopy | src/mailfallback/services/migration_worker.py:75-87 | accepts exactly when the two trees have equally many files |
| CopyTree.CopyIsSuperset | src/mailfallback/services/migration_worker.py:35-72 | a finished copy holds every source file exactly when no directory stood in the place of one |
| CopyTree.CountingSuffices | src/mailfallback/services/migration_worker.py:75-87 | after a copy without such clashes equal counts mean equal sets of paths, and the other way round |
| CopyTree.ContentsAgree | src/mailfallback/services/migration_worker.py:45-46 | with equal paths the contents agree exactly when no different file stood at the target before |
| CopyTree.ClashFoolsCounting | src/mailfallback/services/migration_worker.py:67-87 | two trees where a file meets a directory: the counts agree and a file is missing |
| Migration.StepInv | src/mailfallback/services/migration_service.py:96-178 | every step of the protocol, including crash, cancel and exception, keeps the invariant that ties the committed pointer, the migration row and the worker's position to what the two directories hold |
| Migration.HomeNeverLosesMail | src/mailfallback/services/migration_service.py:247-328 | in every run the home named by the user row holds every file it had when no migration was under way, with its content as long as no target disagreed |
| Migration.AccountKeepsMail | src/mailfallback/services/migration_service.py:96-178 | the same for accounts, in runs where no attempt starts with its target for a source |
| Migration.StepIntact | src/mailfallback/services/migration_service.py:96-178 | a step keeps every mail in the directory the row names, with its content, exactly when it does not delete a mail there and does not switch to a directory that holds something else under a mail's name |
| Migration.RunIntact | src/mailfallback/services/migration_service.py:96-178 | the mail is intact at all times of a run exactly when no step of it is one of these |
| Migration.HomeIntact | src/mailfallback/services/migration_service.py:247-328 | for a home, exactly when no switch goes to a directory that holds something else under a mail's name |
| Migration.AccountIntact | src/mailfallback/services/migration_service.py:96-178 | for an account, exactly when moreover no attempt deletes a mail of the directory the row names |
| Migration.CompletedAttempt | src/mailfallback/services/migration_service.py:105-163 | an attempt that runs to its end keeps the mail exactly when its source was not its target at the start, or there was no mail |
| Migration.CrashAfterSwitchLosesMail | src/mailfallback/services/migration_service.py:105-106 | a run in which a crash after the switch and a restart delete the only copy |
| Migration.AttemptFixed | src/mailfallback/services/migration_service.py:96-163 | while one attempt works, its source, its target and the mail at stake do not change |
| MigrationLaws.InitiateRecords | src/mailfallback/services/migration_service.py:60-70 | a migration is recorded as one from where the pointer is to another store, pending |
| MigrationLaws.BeginReads | src/mailfallback/services/migration_service.py:105-108 | an attempt copies all files of its source, if that is there: of the account's present path, of the home's recorded one |
| MigrationLaws.OnlyCopiesAdd | src/mailfallback/services/migration_service.py:96-178 | a file appears in a directory only by being copied to the target, with the content of the source |
| MigrationLaws.OnlyDeletesRemove | src/mailfallback/services/migration_service.py:96-178 | a file vanishes only by being deleted from the source, and none changes |
| MigrationLaws.PointerMoves | src/mailfallback/services/migration_service.py:152-154 | the pointer moves at the switch, to the target, and at no other time |
| MigrationLaws.MarkFollows | src/mailfallback/services/migration_service.py:60-178 | the migrating mark goes on at the start and off by completion or a cancel only |
| MigrationLaws.FlagFollows | src/mailfallback/services/migration_service.py:25-26 | a request sets the cancel flag, the end of an attempt clears it, and nothing else changes it |
| MigrationLaws.RunShows | src/mailfallback/services/migration_service.py:96-150 | in every run the status shown is the phase the worker is in |
| MigrationLaws.StoresStay | src/mailfallback/services/migration_service.py:82-163 | a migration keeps its two stores |
| MigrationLaws.FaultsAnytime | src/mailfallback/services/migration_service.py:165-178 | whenever a worker works it can be cancelled, raise, or go down with the machine |
| MigrationLaws.EndsAs | src/mailfallback/services/migration_service.py:139-178 | a migration ends as completed by completion only, as failed by a failed check, a cancel or an exception only |
| MigrationWorker.Migrator.Execute | src/mailfallback/services/migration_service.py:73-178 | from every state in which an attempt can start, it takes only protocol steps; it completes exactly when it is not cancelled and the target holds no file that the source, if there is one, lacks; then the row names the target, the migrating mark is off, the source is gone, and a target other than the source holds the files of both; otherwise the migration failed, pointer and source are as they were, the target's files too, and the mark is off exactly if it was cancelled |
| MigrationWorker.Migrator.CopyAll | src/mailfallback/services/migration_service.py:114-127 | cancelled exactly when the flag is set and there is a file; otherwise the target, the source itself included, ends as the union of what it held and the source, its own files winning |
| MigrationWorker.Migrator.RemoveSource | src/mailfallback/services/migration_service.py:157-158 | the source directory is gone and every other directory is as it was |
| MigrationWorker.MergedCount | src/mailfallback/services/migration_service.py:135-140 | after the copy the counts agree exactly when the target had no file of its own |
| ConfigImport.LocalConfig.ImportExport | src/mailfallback/services/config_backup_service.py:181-244 | an unknown version changes nothing; otherwise the report and the database are those of importing the records one after the other in table order |
| ConfigImport.ImportRecord | src/mailfallback/services/config_backup_service.py:212-242 | one record is skipped by key, skipped and remapped by natural key, inserted, or counted as an error, as the rules decide |
| ConfigImport.DbOnlyGrows | src/mailfallback/services/config_backup_service.py:217-239 | rows that were there before are there afterwards, unchanged |
| ConfigImport.EveryRecordCounted | src/mailfallback/services/config_backup_service.py:201-244 | imported + skipped + errors equals the records read, at every point |
| ConfigImportLaws.ReportCounts | src/mailfallback/services/config_backup_service.py:219-239 | at every point and for every table, imported is the number of records inserted and skipped the number found by key or natural key |
| ConfigImportLaws.ErrorsListed | src/mailfallback/services/config_backup_service.py:240-242 | the errors are the failed records, in order |
| ConfigImportLaws.ReportOfExport | src/mailfallback/services/config_backup_service.py:201-244 | the report of a whole export starts from zero: per table it is the number inserted and the number skipped, and the failed records |
| ConfigImportLaws.InsertsGrowDb | src/mailfallback/services/config_backup_service.py:237-239 | the database has grown by exactly the records inserted |
| ConfigImportLaws.RowAsMapped | src/mailfallback/services/config_backup_service.py:214-218 | foreign-key columns go through the remap, every other column is as exported, and the key is made of the key columns in order |
| ConfigImportLaws.FoundExactly | src/mailfallback/services/config_backup_service.py:217-232 | a record is skipped by key exactly when a row has its key, else by natural key exactly when a row of the table has its natural key, and is remapped to such a row |
| ConfigImportLaws.InsertedExactly | src/mailfallback/services/config_backup_service.py:233-242 | in a consistent database a record that is not found is inserted exactly when the database stays consistent with it |
| ConfigImportLaws.InsertedRefersToRows | src/mailfallback/services/config_backup_service.py:237-238 | of any local database and any export: what an inserted row refers to is there at the end |
| ConfigImportLaws.ImportKeepsConsistent | src/mailfallback/services/config_backup_service.py:201-244 | whatever the export holds, closed or not, every reference of every row resolves afterwards, every row is valid and no unique columns are shared |
| ConfigImport.FlattenInOrder | src/mailfallback/services/config_backup_service.py:206-211 | the two loops read the records in table order |
| ConfigImport.TablesAreGood | src/mailfallback/services/config_backup_service.py:36-74 | the insert order of the twelve tables is topological for their foreign keys, and each natural key is a unique column that is no foreign key |
| ConfigImport.RemapOrigin | src/mailfallback/services/config_backup_service.py:229-230 | every remap entry was made by the one record whose id it rewrites, from its natural-key match |
| ConfigImport.RemapKept | src/mailfallback/services/config_backup_service.py:229-230 | a remap entry is never overwritten while ids are unique in the export |
| ConfigImport.NoDanglingKey | src/mailfallback/services/config_backup_service.py:214-216 | in a closed export, as long as no row failed, every foreign key of the next row resolves after rewriting |
| ConfigImport.FailureCause | src/mailfallback/services/config_backup_service.py:240-242 | the first failure of a closed export is never a dangling reference |
| ConfigImport.Homomorphism | src/mailfallback/services/config_backup_service.py:201-243 | a closed export imported without errors: every exported row or link has its image under the remap locally, inserted rows are the exported ones with mapped references, and the image of every reference is there |
| ConfigImport.SecondVerdict | src/mailfallback/services/config_backup_service.py:206-242 | the second import decides each record as the first did, except that an inserted row is now found |
| ConfigImport.Idempotent | src/mailfallback/services/config_backup_service.py:206-244 | importing the same export twice rebuilds the same remap, inserts nothing, leaves the database as it is and reports the same failing rows |
| ImapSearch.DateReads | src/mailfallback/routers/ui_restore.py:629-652 | a rendered date reads back as the same date exactly when the protocol can express it |
| ImapWire.LineReads | src/mailfallback/routers/ui_restore.py:519 | a line of arguments is read back argument by argument, and not at all exactly when a quoted one cannot be read; whatever words stand between the quotes, as long as they have no space, or no quote and no backslash |
| ImapSearch.KeyReads | src/mailfallback/routers/ui_restore.py:565-626 | a written key, of any depth, is read back by the prefix grammar and nothing behind it is touched; it is unreadable exactly when it holds an inexpressible date |
| ImapSearch.KeysRead | src/mailfallback/routers/ui_restore.py:565-603 | a written sequence of keys is read back whole, and not at all exactly when one of them is unreadable |
| RestorePageSearch.OrGroupShown | src/mailfallback/routers/ui_restore.py:606-626 | the recursive group is the right-nested OR of the fields, written out |
| ImapSearch.RightNestMeans | src/mailfallback/routers/ui_restore.py:606-626 | it holds of a message exactly when some field contains the word |
| RestorePageSearch.SplitMeans | src/mailfallback/routers/ui_restore.py:579 | the words of a query have no whitespace, and all of them can be sent exactly when the query can |
| RestorePageSearch.SplitAtSpace | src/mailfallback/routers/ui_restore.py:579 | whitespace anywhere in a query separates the words on its left from those on its right; none are lost, joined or reordered |
| RestorePageSearch.OneWord | src/mailfallback/routers/ui_restore.py:579 | a query without whitespace is one word |
| RestorePageSearch.AsciiSpaces | src/mailfallback/routers/ui_restore.py:579 | which ASCII characters separate words |
| RestorePageSearch.FieldsSpelled | src/mailfallback/routers/ui_restore.py:543-553 | there are nine fields, and each searches the section or header it is called |
| RestorePageSearch.TypesSpelled | src/mailfallback/routers/ui_restore.py:555-562 | there are six types, and the five flags are written as they are called |
| ImapSearch.MonthsInOrder | src/mailfallback/routers/ui_restore.py:637-652 | the month names, in order |
| RestorePageSearch.QueryMeans | src/mailfallback/routers/ui_restore.py:565-603 | the compiled query is AND over words of OR over fields, AND the type, AND the dates |
| RestorePageSearch.LineCompiles | src/mailfallback/routers/ui_restore.py:565-603 | the line asks for exactly the messages wanted if and only if every year has four digits and the query has only whitespace and ASCII characters other than NUL, quote and backslash |
| RestorePageSearch.BuildSearchCriteria | src/mailfallback/routers/ui_restore.py:565-603 | for any query, fields, type and dates the joined criteria are that line; they cannot be read exactly when a date or a word cannot, and otherwise read as the query for the words with their escapes undone |
| RestorePageSearch.QuotedWordFails | src/mailfallback/routers/ui_restore.py:581 | the word hi with its quotes on makes the whole command unreadable |
| RestorePageSearch.EscapedQuoteMisreads | src/mailfallback/routers/ui_restore.py:581 | a backslash before a quote makes the command ask for the quote alone |
| RestorePageSearch.ImapFields | src/mailfallback/routers/ui_restore.py:566-576 | "text" swallows the other fields, unknown ones are dropped, and nothing known means TEXT |
| WorkspaceSearch.SanitizedReads | src/mailfallback/routers/restore.py:63-64 | a sanitized text between quotes reads back as itself, unless it has a character that is not ASCII; then it cannot be read |
| WorkspaceSearch.SanitizeKeeps | src/mailfallback/routers/restore.py:63-64 | exactly the characters from the space on other than the quote and the backslash are kept, in order |
| WorkspaceSearch.ModifiersSpelled | src/mailfallback/routers/restore.py:924 | there are three type modifiers, each written as it is called |
| WorkspaceSearch.RunNests | src/mailfallback/routers/restore.py:947-950 | a run of one OR fewer than there are fields, followed by the tests, is the left-nested OR, written out |
| ImapSearch.LeftNestMeans | src/mailfallback/routers/restore.py:947-950 | the left-nested OR holds exactly when some field contains the word |
| ImapSearch.NestsAgree | src/mailfallback/routers/restore.py:945-950 | both encoders' ORs select the same messages |
| WorkspaceSearch.SearchArgs | src/mailfallback/routers/restore.py:916-953 | for any query the joined arguments can be read exactly when it is ASCII, and then ask for exactly the sanitized text and the type: in TEXT when the body is searched, else in any of the fields, SUBJECT by default |
| BackupJobs.BackupService.StartBackup | src/mailfallback/services/backup_worker.py:198-243 | job running and policy running are one committed step; without a policy nothing changes, without an account only the policy fails |
| BackupJobs.BackupService.OnSuccess | src/mailfallback/services/backup_worker.py:299-316 | the success step writes both rows, the policy's error exactly when its session has one to clear, and leaves the registries |
| BackupJobs.BackupService.OnFailure | src/mailfallback/services/backup_worker.py:329-371 | the failure step keeps a verdict already recorded, on the job and in the policy's error |
| BackupJobs.BackupService.CloseJob | src/mailfallback/services/backup_worker.py:58-72 | closes one job, and its policy exactly if that says running |
| BackupJobs.BackupService.BootSweep | src/mailfallback/services/backup_worker.py:99-124 | the loop closes exactly the running and pending jobs without a live process, and heals exactly their running policies; the count is their number |
| BackupJobs.BackupService.ReapStalled | src/mailfallback/services/backup_worker.py:145-195 | the loop closes exactly the running jobs past the grace whose heartbeat is missing or old, live process or not, and drops their registry entries |
| BackupLaws.ReapsOverdue | src/mailfallback/services/backup_worker.py:145-195 | the watchdog closes as stalled every running job past the grace whose heartbeat is missing or old, live process or not, and drops its registry entries; every other job and entry is as it was |
| BackupLaws.ReapHeals | src/mailfallback/services/backup_worker.py:64-72 | it fails exactly the running policies of these jobs, with its marker |
| BackupLaws.ReapFrame | src/mailfallback/services/backup_worker.py:145-195 | the watchdog adds and removes no row and moves no heartbeat |
| BackupLaws.BootClosesOrphans | src/mailfallback/services/backup_worker.py:99-124 | the boot sweep closes as interrupted every running or pending job without a registered process, and no other |
| BackupLaws.BootHeals | src/mailfallback/services/backup_worker.py:64-72 | it fails exactly the running policies of these jobs, with its marker |
| BackupLaws.BootFrame | src/mailfallback/services/backup_worker.py:99-124 | the boot sweep adds and removes no row and leaves the registries alone |
| BackupLaws.StartBegins | src/mailfallback/services/backup_worker.py:198-243 | a run begins with both rows running, no error, a start time and a heartbeat; without an account only the policy fails; no other row changes |
| BackupLaws.TickBeats | src/mailfallback/services/backup_worker.py:230-238 | a tick is a heartbeat of its own job and nothing else |
| BackupLaws.RegisterTracks | src/mailfallback/services/backup_worker.py:240-241 | a registered process is tracked and nothing else changes |
| BackupLaws.SuccessCompletes | src/mailfallback/services/backup_worker.py:299-316 | a success completes both rows, leaves the failure kind, and the error too unless the session clears it; no other row changes |
| BackupLaws.FailureFails | src/mailfallback/services/backup_worker.py:329-371 | a failure fails both rows and names itself only where no sweep has recorded a verdict; no other row changes |
| BackupLaws.CrashForgets | src/mailfallback/services/backup_worker.py:99-107 | a crash empties the registries and leaves every row |
| BackupLaws.StepsAnytime | src/mailfallback/services/backup_worker.py:99-195 | the sweeps, a crash and a start can come at any time, and a live worker can always tick, succeed or fail |
| BackupRuns.RunCoherent | src/mailfallback/services/backup_worker.py:58-374 | over every interleaving of start, tick, register, succeed, fail, reap, boot sweep and crash, a policy marked running has a running job and the registries hold live workers only |
| BackupRuns.CrashThenBoot | src/mailfallback/services/backup_worker.py:99-124 | after a crash anywhere and the boot sweep no job is running or pending and no policy is running |
| BackupRuns.KindIsFinal | src/mailfallback/services/backup_worker.py:329-346 | once set, a failure kind never changes and the job never runs again; it stays failed exactly if its worker does not succeed later |
| BackupRuns.OnlyWorkersClobber | src/mailfallback/services/backup_worker.py:64-72 | a completed policy turns failed in one step exactly when a worker of it fails or a run finds no account, never by a sweep |
| BackupRuns.StepExact | src/mailfallback/services/backup_worker.py:58-374 | a step keeps every running job under a policy marked running exactly when it is none of those that hide one |
| BackupRuns.PolicyMirrorsJobs | src/mailfallback/services/backup_worker.py:198-374 | throughout a run from coherent rows a policy says running exactly while one of its jobs is, if and only if no step hides a running job |
| BackupRuns.NoOverlapMirrors | src/mailfallback/services/backup_worker.py:198-374 | so it does as long as runs of a policy do not overlap |
| BackupRuns.ReapedJobCompletes | src/mailfallback/services/backup_worker.py:312-316 | a run in which a reaped job ends as completed and stalled, its policy still marked by the watchdog when the session clears no error |
| BackupRuns.LateFailureClobbers | src/mailfallback/services/backup_worker.py:338 | a run in which the failure of a reaped run overwrites the newer run's success |
| BackupRuns.OverlapHidesRun | src/mailfallback/services/backup_worker.py:300 | a run in which two overlapping runs leave a running job under a completed policy |
| RateLimit.RateLimiter.Dispatch | src/mailfallback/middleware/rate_limit.py:30-58 | a POST on a limited path is let through exactly when fewer than the maximum were let through within the last window, and the stored log is the accepted history filtered to that window |
| RateLimit.LimitOf | src/mailfallback/middleware/rate_limit.py:30-42 | a listed path has its own limit, any other that of the first prefix it starts with, and none exactly when there is no such prefix |
| RateLimit.Prune | src/mailfallback/middleware/rate_limit.py:49 | the comprehension keeps exactly the entries less than a window old |
| RateLimit.RecentTwice | src/mailfallback/middleware/rate_limit.py:47-49 | pruning an already pruned log forgets nothing a later look needs |
| RateLimit.ClientBound | src/mailfallback/middleware/rate_limit.py:43-58 | whatever was dispatched, no half-open window, wherever placed, holds more than the maximum of one client |
| RateLimit.LimitsAreSound | src/mailfallback/middleware/rate_limit.py:8-20 | the program's limits all allow at least one request in a positive window |
| MimeParts.ParseAttachments | src/mailfallback/services/index_service.py:234-264 | one record for each named part that is no container, in walk order, with strictly increasing numbers |
| MimeParts.WalkInOrder | src/mailfallback/services/index_service.py:238 | the walk meets every part of the message exactly once, in document order |
| MimeParts.FindPart | src/mailfallback/routers/restore.py:392-402 | the second walk finds the part with the number, and nothing exactly when there is none |
| MimeParts.Extract | src/mailfallback/routers/restore.py:392-402 | a recorded number leads the second walk to the very part it was recorded from |
| MimeParts.NumbersAreDense | src/mailfallback/services/index_service.py:238-241 | every number from 1 to the last names a part |
| QuarantineNames.NameReadsBack | src/mailfallback/services/folder_reconcile.py:25-54 | with or without a collision suffix the quarantine name reads back as the folder with its separators folded, exactly for names that are not empty and have no newline |
| QuarantineNames.NameIsComponent | src/mailfallback/services/folder_reconcile.py:28-41 | the name is one path component without a colon, and tells every character of the folder and the date |
| QuarantineNames.SuffixNumbers | src/mailfallback/services/folder_reconcile.py:192-198 | the number in a collision suffix is the one counted |
| QuarantineNames.OtherNamesStay | src/mailfallback/services/folder_reconcile.py:44-55 | a path that is read as something else is one in the container, with a date behind the name it is read as |
| Quarantine.MailStore.QuarantineFolder | src/mailfallback/services/folder_reconcile.py:179-204 | nothing on disk is overwritten, every message of the folder is at the unused destination with its content, only the sync state at its top is gone, and nothing else changes; nothing at all happens exactly when there is no such directory, or it is the container, or a file has the container's name; with a directory named like sync state the move is done and some of the sync state may be left |
| Quarantine.MailStore.UnusedName | src/mailfallback/services/folder_reconcile.py:192-198 | the numbering loop ends, at the first free number from 2 on |
| Quarantine.MovedRight | src/mailfallback/services/folder_reconcile.py:201 | a move to a free path carries the whole subtree and touches nothing else |
| Locator.BasesInvertWalk | src/mailfallback/services/index_service.py:271-294 | the bases of a folder are exactly the directories whose files the walk attributes to it |
| Locator.JoinRelPath | src/mailfallback/services/index_service.py:276-278 | joining a relative path to the root gives the directory back, at any depth |
| Locator.SamePrefix | src/mailfallback/services/index_service.py:562-572 | two file names have the same prefix exactly when they differ in their flags at most |
| Locator.FirstFlagsLoseTrack | src/mailfallback/services/index_service.py:562-572 | a name without a flags part and the same name with one have different prefixes |
| Locator.LocateLiveFile | src/mailfallback/services/preview_service.py:40-59 | finds a file of the folder with the recorded name if there is one, else one with its prefix, and nothing exactly when there is none; in either case in the first place that has one, base by base and cur before new |
| Locator.InboxFirst | src/mailfallback/services/index_service.py:281-292 | of two files of the same name the one in the real INBOX directory is found |
| Locator.FindAgain | src/mailfallback/services/preview_service.py:40-59 | a message indexed from one directory is found wherever in its folder it is now, whatever its flags, if its prefix is unique there |
| Recovery.DeletionTarget | src/mailfallback/services/recovery_service.py:236-243 | the upward walk ends at the innermost wrapper directory around the path, or at the path if there is none |
| Recovery.TargetIsWrapper | src/mailfallback/services/recovery_service.py:236-243 | from inside a restored tree that is the wrapper of the restore exactly when no inner component looks like one |
| Recovery.OffsiteAsWritten | src/mailfallback/services/recovery_service.py:236-243 | the written path contains the marker exactly when one of its components does |
| Recovery.Recoveries.DeleteRecovery | src/mailfallback/services/recovery_service.py:213-252 | scoped to the account, drops the row and removes exactly what lies below the target |
| Recovery.ResolveMaildir | src/mailfallback/services/recovery_service.py:59-98 | the original path if it is there; else, exactly if a directory has the name of the repository prefix, such a directory with none of that name above it; else the deepest directory above every mail folder; never one outside the restored tree |
| MailboxStatus.Resolve | src/mailfallback/services/mailbox_status.py:262-482 | a sync is offered only when the trigger takes it, and in the states that ask for one exactly then; an error is never quiet; only a failure is red; a stale mailbox has a last success to date |
| MailboxStatus.BarredStates | src/mailfallback/services/mailbox_status.py:356-385 | migrating, suspended, sign-in needed and the two syncing states are given exactly when the account is so |
| MailboxStatus.OpenStates | src/mailfallback/services/mailbox_status.py:387-482 | each of the other eight states is given exactly when how the last run ended, the time since the last sign of progress and a pause say so |
| MailboxStatus.StatesTell | src/mailfallback/services/mailbox_status.py:356-482 | tone, action and age go with the state; the age is the number of whole days since the last success |
| MailboxStatus.TriggerSync | src/mailfallback/routers/agent.py:505-519 | refuses exactly when suspended, migrating, with a migrating owner, or paused, and names the first of these |
| MailboxStatus.OfferedSyncIsTaken | src/mailfallback/routers/agent.py:505-519 | what the ladder offers, the trigger takes |

## Left out

- MailIndex.MailIndex.UpsertMessageSet: hashes and addresses are numbers in string order, header parsing gives a content's hash and recipients, and a file's content is fixed by its coordinates; attachment rows, timestamps and the rebuild-status row are not modelled, and every written state stands for a commit, which covers the batched ones.
- MailIndex.WalkFiles: attachment parsing and Tika extraction during the walk are foreign calls.
- CopyTree.Copier.CopyTree: symlinks, permissions and torn single-file copies; a file copy is atomic.
- CopyTree.CountingSuffices: the second scan of the destination is taken to show the files that are there.
- Migration.StepInv: directories are sets of files with contents, so kind clashes are in `CopyTree` only; the administrator's cancel of a migration that is already cleaning, and clearing marks by hand, are not steps.
- MigrationWorker.Migrator.Execute: a crash, an exception and a cancel that comes while it runs are in the state machine of `Migration`, not in this method; missing rows and progress numbers are not modelled.
- ConfigImport.LocalConfig.ImportExport: cell values are numbers; type coercion and encryption of secrets are part of one uninterpreted row check, and no claim is made about secret columns.
- ConfigImport.Homomorphism: ids that occur in two tables of one export, which random identifiers exclude.
- RestorePageSearch.BuildSearchCriteria: splitting the field list and reading the ISO date are library calls; the reader knows atoms and quoted strings, no literals, and keys without parentheses, sequence sets and sizes, which neither encoder writes; a character that is not ASCII has no place in a quoted string, and the library refuses to send it.
- WorkspaceSearch.SearchArgs: selecting folders and fetching headers; fields are the four the page offers and the other header sections.
- BackupJobs.BackupService.OnSuccess: log texts, counters, timestamps, snapshot rows, notifications and history trimming; whether the session holds an error to clear is a parameter.
- BackupJobs.BackupService.ReapStalled: killing the process only makes a later failure of its worker possible; it is not forced.
- RateLimit.RateLimiter.Dispatch: the key is the pair of client and path, not the two joined by a colon; requests are handled one at a time.
- MimeParts.ParseAttachments: file extension, content type and extracted text of a record; a parse error gives no records.
- Quarantine.MailStore.QuarantineFolder: the container's explanatory message is not written. Synced folders nested in the moved one move along and keep their own sync state, as in the code.
- QuarantineNames.NameReadsBack: digits are the ASCII ones.
- Recovery.Recoveries.DeleteRecovery: a removal that fails half way; paths are component lists, so doubled slashes are not modelled.
- MailboxStatus.Resolve: labels, icons, texts, resume times and the job outcome table.
- `folders_to_quarantine`, `local_synced_folders`, `_merge_hit`, `resolve_job_outcome` and `initiate_*` validation would only add easy members.
- Store drains, snapshot bits and backfills, staging, sync workers, schedulers, notifications, restic, Dovecot, OAuth and all pages.

# Log monitor: verified model

A Dafny model of an agentless log monitor. The monitor reads remote log files over SSH, stores a hash of every line,
groups stored lines into chunks with an aggregate hash, and later checks whether collected lines were changed or
removed. Around that core it has an asynchronous job manager, an in-memory repository, per-server locks with bounded
worker pools, discovery of log files, and exponential backoff for unreachable servers.

Verify with `dafny verify dfyconfig.toml`.

## How it is built

- `Prelude`, `Models`, `Text`, `Sorting`, `Hashing`: shared vocabulary, the domain records, string operations with
  their Go meaning, stable sorting, and hash functions as parameters.
- `Chunking`, `Batches`: grouping entries into chunks and packing chunks into bounded batches, and why that is a
  partition.
- `Collector`, `StoreFacts`: one collection run as a function on the stored state of one log file, and what every run
  keeps.
- `FileReadings`, `RemoteFile`, `Replacements`: what a run reads and stores of a remote file, collecting a file that
  grows, and files that are rotated or truncated.
- `Integrity`, `FastPath`, `History`, `EndToEnd`, `Verdicts`: the flat comparison, the chunk fast path, histories of
  runs, the end-to-end theorem, and what the recorded verdict tells.
- `LineOutput`: parsing numbered output, against the printer.
- `Tables`, `TableOps`, `Views`, `BatchRules`, `InsertRules`, `Storage`: the repository as nine maps, its invariant,
  what each write does to it, and the class that updates the maps in place.
- `CollectorService`, `IntegrityService`, `Monitoring`: the services running on that class, proved equal to the
  functions above.
- `RunSteps`, `CheckSteps`, `RunTurns`, `CheckTurns`, `InterleavedTasks`: runs and checks of different log files
  interleaved call by call on one repository.
- `JobState`, `JobHistory`, `JobSystem`, `JobInvariant`, `JobRuns`, `JobEndings`, `JobAliases`, `JobShutdown`,
  `JobManager`: the job manager's mutex sections, trimming, the interleaving step system, its invariant, what follows
  over runs, why jobs end as they do, keys that outlive their job, shutdown, and the class.
- `Locks`, `Pools`, `ServerSweeps`, `Discovery`, `Health`: the smaller protocols.

Two kinds of statement carry the weight. Methods follow the program's loops and field updates, and are tied to
functions by their postconditions (`State() == ...`). Lemmas then say what those functions guarantee over every input,
every history of runs, or every interleaving.

Modelling choices worth knowing:

- Hash functions are parameters. The only assumption is that digests hold no newline; freedom from collisions is a
  hypothesis about the very strings a check compares (`NoLineCollisions`, `NoTailCollisions`,
  `NoAggregateCollisions`), never a global axiom.
- A run meets `Circumstances`: the inspected identity or none, the lines it reads for each starting point or a failed
  read, and a write budget after which the repository fails. Runs of one history are independent in all of these, so
  appends, edits, truncations and rotations in between are all covered.
- Fresh ids are ids that occur nowhere in the repository and nowhere in the batch at hand.
- Sorting by the library is modelled by a stable sort where keys are unique. Where they need not be, in line output,
  the parser may return any ascending arrangement.

## Findings

Properties that fail of the code, or hold only under a condition the code does not enforce. Each has a lemma.

- `CreateLogEntries` does not look for repetitions inside its list. It keeps the indexes consistent exactly if each
  entry without an id is the last one for its line, and each entry with an id is the last one with that id exactly if
  it is the last one for its line (`InsertRules.InsertKeepsConsistentIff`). Two new entries for one line break the
  line index (`InsertRules.RepeatedLineBreaksIndex`). The collector uses the atomic batch write instead, which rejects
  repetitions.
- `CreateLogChunks` stores a part of its list exactly if every chunk is acceptable on its own but one repeats another
  (`InsertRules.AppliedPrefixIs`, with two chunks of one number in `InsertRules.RepeatedNumberIsStoredHalf`).
- The SSH executor trims the whole output of a read, so the line that is last at that moment loses trailing white
  space that it keeps once another line follows. A file that only grew can therefore be reported as tampered
  (`RemoteFile.TrailingBlankIsReported`). The check is right exactly if every line that was last in the read that
  stored it is still last or has no trailing white space beyond returns (`RemoteFile.AppendedFileChecksOkIff`). The
  same holds for incremental against one full collection (`RemoteFile.IncrementalEqualsOneShotIff`). A single read
  round-trips exactly if no content ends in a return and the last not in white space (`LineOutput.SshRoundTripIff`).
- A last line that is collected half-written is reported once it is complete (`RemoteFile.HalfLineIsReported`);
  `RemoteFile.GrowingFileCheckIsExact` says which lines of a growing file are reported.
- A file truncated in place, or replaced under the same device, inode and file id, is noticed exactly if the size
  found is below the recorded one but not zero (`Replacements.TruncationIsNoticedIff`). On Windows the file id is the
  path, so this is all that shows a rotation there; one to a file that is not smaller is missed
  (`Replacements.WindowsRotationMixesIff`). An emptied file is not noticed, and once a run recorded size zero no later
  size looks smaller (`Replacements.EmptiedFileMixes`); nor is one that regrew to its recorded size before the next
  run (`Replacements.RegrownFileMixes`). Rows of two files are then mixed.
- A file replaced between a run's identity inspection and its read is not noticed by that run either
  (`Replacements.RotationDuringRunMixes`), nor is any replacement while no identity was recorded yet.
  `Replacements.ReplacementsNeverMix` is for histories in which each read over a replaced file has noticed, and
  `Replacements.CompletedRunIsUnmixedIff` says exactly when all rows after a completed run are rows of the file it
  read.
- Idempotency keys are not bounded by the history: a key that became a second name of a job through a fingerprint
  match stays when the job is trimmed (`JobAliases.DanglesAfterTrimIff`), for any number of keys
  (`JobAliases.DanglingKeysAreUnbounded`).
- Output lines without a tab must not be indented: the number of an indented one is read, but stays in its content as
  well (`LineOutput.IndentedLineKeepsNumber`).
- A doubled backoff one nanosecond short of an odd maximum is rounded up to it (`Health.DelayIsCappedDoublingIff`).
- A sweep whose context ends before the launcher first looks at it reports success for the server, and only such a
  sweep reports success without having processed anything (`Pools.SuccessIsBackedIff`,
  `Pools.CanceledSweepReportsSuccess`).
- A failure recorded from an outdated copy of the server can set the wrong time for the next try, though no wrong
  counter (`Health.OutdatedCopiesIff`, with a concrete run in `Health.OutdatedCopyWaitsTooShort`).
- Unlocking a server once more than it was locked is harmless exactly if no operation is inside its section by then
  (`Locks.ExtraUnlockIsHarmlessIff`, `Locks.SecondUnlockBreaksIsolation`); the protocol theorem is for one unlock per
  acquisition.
- `Sync` fails if a path that is not stored yet occurs twice in its input; the output parser removes repetitions
  (`Discovery.UniquePathsAreCreatable`).

## Model

| member | source | states |
|---|---|---|
| Hashing.JoinHashesInjective | internal/service/collector/service.go:509-516 | the string under a chunk hash, every entry hash followed by a newline, comes from one list of hashes only, even for lists of different lengths; hashes only have to be newline-free |
| Chunking.NormalizeOptions | internal/service/collector/service.go:423-437 | safe defaults: sizes become positive (5000 and 1000), a chunk never exceeds a batch, an unset algorithm is sha256, sensible settings are kept as given |
| Chunking.SplitEntries | internal/service/collector/service.go:477-490 | the loop cuts entries into the groups the recursive split gives; a size that is not positive gives one group |
| Chunking.SplitPartitions | internal/service/collector/service.go:477-490 | the groups, one after the other, are the entries, for any size; none is empty, none larger than a positive size, and all but the last have exactly that size |
| Chunking.HashEntryBatch | internal/service/collector/service.go:509-516 | the builder loop computes the aggregate hash of the joined entry hashes in order |
| Chunking.BuildChunks | internal/service/collector/service.go:159-187 | the chunks describe consecutive groups that make up the entries, all full but the last: numbers go on from the latest one, each with first and last line, count and aggregate hash of its own group |
| Chunking.EntriesForChunk | internal/service/collector/service.go:466-474 | exactly the entries in the chunk's inclusive line range, in order |
| Chunking.StrictRangeOfGroup | internal/service/collector/service.go:466-474 | without repeated line numbers a chunk's line range selects exactly the group it was computed from |
| Chunking.RangeOfGroup | internal/service/collector/service.go:466-474 | with repeated line numbers the selection is the group, or shows the repetition itself |
| Chunking.SplitEntryChunkBatches | internal/service/collector/service.go:444-464 | the packing loop: a chunk joins the current batch unless a non-empty batch would outgrow the size |
| Batches.BatchesPartition | internal/service/collector/service.go:423-490 | for strictly increasing entries the batches, concatenated, give back all entries and all chunks in order, every batch is within the batch size, and inside its batch each chunk matches exactly its own rows |
| Batches.BatchesAreFull | internal/service/collector/service.go:423-490 | the chunks of a run describe consecutive groups of its entries, column by column, all full but the last; a batch is closed only when the next chunk's rows do not fit |
| Collector.SaveAllKeepsGroups | internal/service/collector/service.go:198-223 | saving a plan with any write budget, stopping at any batch, leaves a store of whole groups whose chunks describe them, even if some line number was read twice |
| Collector.CollectKeepsGroups | internal/service/collector/service.go:68-141 | one run, complete or failed anywhere, with any read lines in ascending order, keeps the store well grouped |
| StoreFacts.GroupedIsWellFormed | internal/service/collector/service.go:159-187 | well-grouped means, row by row: chunk numbers 0..n-1, ordered disjoint ranges, count and hash matching the stored rows, no chunk above the chunk size, every row in exactly one chunk |
| StoreFacts.SaveAllSavesPrefix | internal/service/collector/service.go:198-207 | without repeated lines a saving run stores a prefix of its entries, all of them exactly if the repository outlives the batches |
| StoreFacts.RunAddsRows | internal/service/collector/service.go:95-141 | whatever a run meets, repeated line numbers included, it adds, behind what it builds on, one row for each of the first lines it read beyond the stored ones, in order; if it succeeds, for all of them, and it returns their number |
| History.ReachableStoresAreWellFormed | internal/service/collector/service.go:68-223 | after any list of runs, each complete or failed at any batch, the store is well formed |
| CollectorService.AcceptedIff | internal/repository/memory/batch.go:44-99 | for a batch that continues the stored rows, the repository takes it exactly when its lines go on strictly ascending, which is what the collector's model says |
| CollectorService.PlanIsSaveable | internal/service/collector/service.go:95-124 | whatever was read, the planned batches continue the store: rows ascending, chunk numbers following the latest |
| CollectorService.WrittenBatchIsSaved | internal/repository/memory/batch.go:22-41 | a written batch changes one log file's view by exactly that batch and no other log file, server or check result |
| CollectorService.SaveOneBatch | internal/service/collector/service.go:198-207 | one batch write: taken exactly when the model takes it, otherwise nothing changed |
| CollectorService.SaveEntriesAndChunks | internal/service/collector/service.go:198-207 | the saving loop on the repository equals the model's save, for any number of writes before a failure |
| CollectorService.ResetLogFileState | internal/service/collector/service.go:143-156 | collected entries and chunks of this log file go, everything else stays |
| CollectorService.EntriesFromLines | internal/service/collector/service.go:99-116 | one entry for each line above the highest stored number, in order and no other: with number, log file, hash of the content, and the content itself exactly if raw content is configured, otherwise none |
| CollectorService.UpdateScannedRow | internal/service/collector/service.go:95-139 | the log file row, column by column: scanned, the inspected identity, the number of the last line read (none after a reset without lines), everything else as before |
| CollectorService.CollectLogFile | internal/service/collector/service.go:68-141 | a whole run on the repository equals the model's run on the log file's view, result included; it adds one row for each of the first lines read beyond the stored ones, with its content exactly if raw content is configured, all of them if it succeeds, and then updates the log file row; the invariant holds afterwards and all other log files are untouched |
| FileReadings.SeenThroughSsh | internal/ssh/executor.go:170-190 | what a run reads of a file, through the remote command, the executor's trimming and the parser: every line without trailing returns, and the line that is last at that moment without any trailing white space |
| FileReadings.RunOnFile | internal/service/collector/service.go:68-141 | one run over any file and any store keeps the rows it builds on, adds a first part of the lines numbered above them, and succeeds exactly if the repository outlives its batches; then it has added all of them and recorded the inspected identity |
| FileReadings.ReadOn | internal/service/collector/service.go:95-124 | reading on in the same file keeps the rows readings of that file, each as the read that stored it saw it |
| FileReadings.ReadsAsStoredIff | internal/ssh/executor.go:170-190 | a line that was last when it was stored reads the same now exactly if it is still last or has no trailing white space beyond returns |
| RemoteFile.HistoriesAreSound | internal/service/collector/service.go:68-156 | over every history of growth, rotation, truncation, inspections and runs failing anywhere: the store is well grouped, and unless the file was replaced since, its rows are readings of the present file |
| RemoteFile.GrowingFileIsMirrored | internal/service/collector/service.go:345-380 | while a file only grows under one identity nothing is ever reset and the stored rows are always its first lines |
| RemoteFile.IncrementalEqualsOneShotIff | internal/service/collector/service.go:68-141 | after any number of partial or complete runs over a growing file, a completed run stores the same rows as one full collection from nothing exactly if every line that was last in the read that stored it still reads the same |
| RemoteFile.GrowingFileCheckIsExact | internal/service/integrity/service.go:53-105 | a check of a file that only grew reports exactly the lines that were last in the read that stored them and read differently now; ok exactly if there is none |
| RemoteFile.SettledFileChecksOk | internal/service/integrity/service.go:53-105 | no false alarm, whatever hash collides, while every such line still reads the same |
| RemoteFile.AppendedFileChecksOkIff | internal/service/integrity/service.go:53-105 | for a file that only gains whole lines the check is ok exactly if every line that was last in the read that stored it is still last or has no trailing white space beyond returns |
| RemoteFile.TrailingBlankIsReported | internal/ssh/executor.go:170-190 | a concrete file that only grows, untouched otherwise, and is reported as tampered because of a trailing blank |
| RemoteFile.HalfLineIsReported | internal/service/integrity/service.go:53-105 | a concrete file whose last line is collected half-written and reported once it is complete |
| Replacements.DetectionIff | internal/service/collector/service.go:345-380 | with device and inode on both sides, rotation is detected exactly if they differ or the size went down to something above zero; an emptied file is not detected |
| Replacements.OtherDetectionIff | internal/service/collector/service.go:345-380 | event logs are told apart by their name alone, files without the Unix pair by file id and size; an identity that carries nothing never resets |
| Replacements.ShrinkDetectionIff | internal/service/collector/service.go:345-380 | with the same device, inode and file id on both sides and no event log, whatever the operating system, only a size below the recorded one but not zero is detected |
| Replacements.CompletedRunIsUnmixedIff | internal/service/collector/service.go:68-141 | after a completed run all rows are readings of the file it read exactly if it detected rotation or had found only readings of this file |
| Replacements.TruncationIsNoticedIff | internal/service/collector/service.go:345-380 | a completed run over a file that was truncated in place or replaced under the same keys, in any history and on any operating system: noticed, and then exactly the file's rows are stored, if its size is below the recorded one but not zero; otherwise the old rows stay and the lines numbered above them are added |
| Replacements.ReplacementsNeverMix | internal/service/collector/service.go:345-361 | rows of two files are never mixed over any history in which, for each read over a replaced file, the guard on recorded and inspected identity holds, by whichever of its branches |
| Replacements.NoticedReplacementIsRecollected | internal/service/collector/service.go:68-156 | the run whose guard holds leaves only readings of the new file, also when an earlier reset run failed half-way; if it completes, one row for each line |
| Replacements.WindowsRotationMixesIff | internal/service/collector/service.go:302 | a reachable rotation of a file known by its path alone, as on Windows: for every size of the new file, the rows are mixed exactly unless it is below the old one and not zero |
| Replacements.RotationDuringRunMixes | internal/service/collector/service.go:78-92 | a concrete history in which the file is replaced between identity inspection and read, and the store mixes both files |
| Replacements.RegrownFileMixes | internal/service/collector/service.go:378-380 | a concrete history in which a truncated file regrew to its recorded size before the next run, and the store mixes both files |
| Replacements.EmptiedFileMixes | internal/service/collector/service.go:378-380 | a concrete history in which a file is emptied, a run records size zero, and what is written next is mixed with the old rows |
| RunSteps.TurnKeepsRest | internal/service/collector/service.go:68-156 | a run cut into its repository calls: no call changes what the run will come to |
| CheckSteps.CheckTurnKeepsRest | internal/service/integrity/service.go:53-179 | a check cut into its repository calls, one for each chunk: no call changes what it will report |
| RunTurns.TakeTurn | internal/service/collector/service.go:68-156 | one repository call of one run changes only its own log file, as the model's turn says |
| CheckTurns.TakeCheckTurn | internal/service/integrity/service.go:53-179 | one repository call of one check changes nothing but its progress, until it records its report as one new history row: an error row with zero counts and the reason if nothing was compared, otherwise verdict and counts of the comparison |
| InterleavedTasks.RunInterleaved | crons/collection/runner.go:138-171 | runs and checks of different log files interleaved call by call in any order: each that is over has come to what it comes to alone, is over once it had the turns it needs alone, other log files stay as they were, and the history gains exactly the rows of finished checks, each telling what its check met: ok exactly if the source was readable and unreplaced and no stored row was caught differing |
| Integrity.IndexByLine | internal/service/integrity/service.go:79-82 | current content by line number; a later line with the same number counts |
| Integrity.CompareStoredEntries | internal/service/integrity/service.go:196-216 | the loop reports exactly the rows whose line is missing or hashes differently, with both hashes and the current content |
| Integrity.CompareStoredMembers | internal/service/integrity/service.go:196-216 | a report is in the flat result exactly if it is the report about a stored row that differs |
| Integrity.AppendUniqueTampered | internal/service/integrity/service.go:239-248 | reports are appended once per line number, and the seen set tracks exactly the reported lines |
| FastPath.HashCurrentChunk | internal/service/integrity/service.go:218-237 | the loop hashes the current contents of a chunk's rows, and gives up exactly if the row count differs or a line is gone |
| FastPath.FastPathIsSound | internal/service/integrity/service.go:118-179 | unconditionally, also under collisions, the result has no line twice and is a subset of the flat comparison |
| FastPath.FastPathIsExact | internal/service/integrity/service.go:118-179 | for any chunks, overlapping, sparse or stale: a row is reported exactly if it differs and is not hidden by being covered by skipped chunks only |
| FastPath.FastPathRefinesFlat | internal/service/integrity/service.go:118-248 | if a matching row count implies a matching chunk hash and no compared strings collide, the fast path reports the same set as comparing every stored row |
| History.CheckEqualsFlatComparison | internal/service/integrity/service.go:118-179 | on a store the collector produced, the fast path returns the flat comparison's list itself, order included |
| History.HistoriesRecord | internal/service/collector/service.go:99-116 | after any history every stored row has the hash of the content its line had when it was collected, that content itself if raw content is configured, and no content otherwise |
| History.StoredRowsWereRead | internal/service/collector/service.go:99-116 | after any history every stored row is the row of a line one of the runs read beyond what was stored then: its number, its hash, and its content exactly if raw content is configured, otherwise none |
| EndToEnd.CheckIsExact | internal/service/integrity/service.go:53-105 | after any history of runs a check of a readable, unreplaced source reports exactly the collected lines that changed or disappeared, each once, in order, with evidence; tampered exactly if there is one, otherwise ok |
| EndToEnd.UnchangedLinesAreOk | internal/service/integrity/service.go:53-105 | no false alarms, with no hypothesis about the hash functions: unchanged collected lines give ok |
| IntegrityService.FindTamperedIgnoresIds | internal/service/integrity/service.go:118-179 | row ids play no part in what the check reports |
| IntegrityService.FindTamperedEntries | internal/service/integrity/service.go:118-179 | the service's scan over the repository computes the model's result |
| IntegrityService.CheckLogFile | internal/service/integrity/service.go:53-116 | the check on the repository is the model's check against the identity in the caller's copy, current or not; its only effect is one new history row, recorded exactly if the log file still exists: for a replaced or unreadable source an error row with zero counts and the reason, otherwise the counts of all and of the differing rows, and ok exactly if none was caught |
| Verdicts.CarriedReportTells | internal/service/integrity/service.go:53-116 | what the recorded row tells in terms of what the check met: replaced, unreadable with the read error, or compared; then all stored rows are counted, as many are tampered as differ without hiding behind matching chunks, and the verdict is ok exactly if none does |
| Verdicts.OkIffNothingDiffers | internal/service/integrity/service.go:53-116 | on a store the collector produced and without hash collisions the recorded row says ok exactly if the source was readable and not replaced and no stored row differs from its present content |
| Monitoring.CollectAll | internal/service/collector/service.go:68-141 | any number of runs on the repository leaves exactly the store of the history model, well formed, other log files untouched |
| Monitoring.CollectAllThenCheck | internal/service/integrity/service.go:53-105 | the end-to-end guarantee on the repository itself: collect any number of times, check, and the report and its history row, verdict, counts and empty message, are exact |
| LineOutput.ParseOutputLine | internal/service/collector/service.go:386-412 | one output line: trailing returns dropped, blank skipped, split at the first tab or after the first word, number parsed within 64 bits |
| LineOutput.ParseLineOutput | internal/service/collector/service.go:382-420 | for arbitrary text the result is the parsed lines in ascending order of number |
| LineOutput.SkippedIff | internal/service/collector/service.go:386-410 | a line is skipped exactly if it is blank or the word in the place of the number is no 64-bit number |
| LineOutput.ParseSpacedLine | internal/service/collector/service.go:398-405 | a line without tabs is read as its first word and what follows, without white space around it |
| LineOutput.IndentedLineKeepsNumber | internal/service/collector/service.go:398-405 | for every number an indented line without tabs whose content is read with the number still in it |
| Text.ReplacingReturnsKeepsLines | internal/service/collector/service.go:385 | replacing Windows line ends changes the split lines only by returns at their ends |
| Text.SplitUndoesJoin | internal/service/collector/service.go:385 | splitting at newlines undoes joining newline-free lines |
| TableOps.SortedFilesAscend | internal/repository/memory/logfiles.go:71-76 | sorting a server's log files by path, then id, lists each once, strictly ascending by path |
| Text.ParseUndoesFormat | internal/service/collector/service.go:407-410 | a printed number is read back exactly if it fits 64 bits |
| LineOutput.ReadUndoesPrint | internal/service/collector/service.go:382-420 | for strictly increasing numbers and newline-free contents, parsing the "number TAB content" lines gives those lines, contents without trailing returns |
| LineOutput.RoundTripIff | internal/service/collector/service.go:382-420 | parser and printer undo each other exactly if no content ends in a carriage return |
| LineOutput.ReadUndoesPrintThroughSsh | internal/ssh/executor.go:170-190 | with the executor's trimming of the whole output the last content also loses trailing white space, nothing else |
| LineOutput.SshRoundTripIff | internal/ssh/executor.go:170-190 | through the executor the round trip is exact precisely if no content ends in a return and the last one not in white space |
| Tables.BatchKeepsConsistentIff | internal/repository/memory/entries.go:35-46 | writing rows under their ids keeps the indexes consistent exactly if for every row being the last write of its id and being the last write of its line agree |
| InsertRules.InsertKeepsConsistentIff | internal/repository/memory/entries.go:23-49 | a list of individually acceptable entries keeps the indexes consistent exactly if each entry without an id is the last for its line and each with an id is the last with that id exactly if it is the last for its line, whatever ids are generated |
| InsertRules.EntriesWithoutIds | internal/repository/memory/entries.go:23-49 | entries without ids, the form the collector uses, are safe exactly if no two are for one line |
| InsertRules.RepeatedLineBreaksIndex | internal/repository/memory/entries.go:23-49 | a concrete list of two entries for one line that is taken and breaks the line index |
| InsertRules.AppliedPrefixIs | internal/repository/memory/chunks.go:22-39 | a chunk list is stored whole exactly if none of its chunks is rejected, and in part exactly if each is acceptable alone but one repeats another |
| InsertRules.RepeatedNumberIsStoredHalf | internal/repository/memory/chunks.go:22-39 | a concrete list of two chunks with one number, of which one is stored before the call fails |
| Tables.DistinctWritesAgree | internal/repository/memory/entries.go:23-49 | distinct ids and lines inside the batch are enough for that |
| Tables.PutEntriesAdds | internal/repository/memory/entries.go:176-189 | fitting rows are all added and no other row is touched |
| TableOps.EraseFileKeepsConsistent | internal/repository/memory/logfiles.go:216-245 | the cascade of a log file deletion keeps every index exact and every reference resolved |
| TableOps.EraseServerKeepsConsistent | internal/repository/memory/servers.go:194-210 | so does the cascade of a server deletion |
| TableOps.EraseFileRemovesExactly | internal/repository/memory/logfiles.go:216-245 | deleting a log file removes it, its path entry and exactly the rows collected from it; survivors are unchanged |
| TableOps.EraseServerRemovesExactly | internal/repository/memory/servers.go:194-210 | deleting a server removes exactly the rows that lead back to it through their log file; survivors are unchanged |
| Views.SortedRowsAreEntryRows | internal/repository/memory/entries.go:216-225 | gathering a log file's rows in any order and sorting by line gives the one ordered list of its rows |
| Views.ChunkRowsFacts | internal/repository/memory/chunks.go:114-126 | the listed chunks are exactly the log file's chunks, with strictly increasing numbers |
| BatchRules.EntriesProblemMeans | internal/repository/memory/batch.go:44-70 | no problem exactly if every entry is present, acceptable and no repetition; a problem is the error of the first rejected entry |
| BatchRules.ChunksProblemMeans | internal/repository/memory/batch.go:73-99 | the same for chunks |
| BatchRules.EntryVerdictFromSeen | internal/repository/memory/batch.go:44-70 | the validator's two sets decide repetitions inside the batch |
| BatchRules.ChunkVerdictFromSeen | internal/repository/memory/batch.go:73-99 | the same for chunks |
| BatchRules.WrittenBatchFits | internal/repository/memory/batch.go:22-41 | a written batch adds exactly the given rows with fresh ids and keeps the invariant |
| BatchRules.TableKnowsRepetitions | internal/repository/memory/chunks.go:75-111 | after some rows of a list were stored, the table alone tells whether the next one repeats one of them |
| Storage.Store.constructor | internal/repository/memory/storage.go:26-38 | a new repository is empty and valid |
| Storage.Store.ValidateLogEntryBatch | internal/repository/memory/batch.go:44-70 | the validation loop computes the verdict on the whole list without changing anything |
| Storage.Store.ValidateLogChunkBatch | internal/repository/memory/batch.go:73-99 | the same for chunks |
| Storage.Store.ValidateLogEntry | internal/repository/memory/entries.go:192-203 | unknown log file, taken id, taken line, in this order |
| Storage.Store.ValidateLogChunk | internal/repository/memory/chunks.go:97-111 | unknown log file, taken id, taken chunk number found by walking the log file's list |
| Storage.Store.CreateLogEntriesWithChunks | internal/repository/memory/batch.go:22-41 | all or nothing: succeeds exactly if every row is acceptable and no row repeats another; then exactly the given rows are added; otherwise no map changes and the error is the first one |
| Storage.Store.CreateLogEntries | internal/repository/memory/entries.go:23-49 | succeeds exactly if each entry is acceptable on its own; generated ids are new to the table, to the list and to each other; afterwards the repository is valid exactly if repetitions inside the list are harmless |
| Storage.Store.CreateLogChunks | internal/repository/memory/chunks.go:22-39 | fails without a change if some chunk is unacceptable on its own; otherwise stores the chunks before the first repetition; succeeds exactly if no chunk of the list is rejected; valid in every case |
| Storage.Store.CreateLogChunk | internal/repository/memory/chunks.go:75-94 | one chunk is stored exactly if acceptable, with a fresh id if it had none |
| Storage.Store.ListLogEntries | internal/repository/memory/entries.go:65-71 | a page of the log file's rows in line order; limit 0 means all |
| Storage.Store.ListLogEntriesByLineRange | internal/repository/memory/entries.go:119-130 | exactly the rows in the inclusive range, in order |
| Storage.Store.GetMaxLineNumber | internal/repository/memory/entries.go:133-144 | the last row's number, or zero |
| Storage.Store.CountLogEntries | internal/repository/memory/entries.go:147-152 | the number of rows |
| Storage.Store.DeleteLogEntriesByLogFile | internal/repository/memory/entries.go:155-164 | exactly the log file's entries and its line index go |
| Storage.Store.ListLogChunks | internal/repository/memory/chunks.go:42-48 | a page of the log file's chunks by number |
| Storage.Store.GetLatestLogChunk | internal/repository/memory/chunks.go:51-60 | the chunk with the greatest number, or not found if there is none |
| Storage.Store.DeleteLogChunksByLogFile | internal/repository/memory/chunks.go:63-72 | exactly the log file's chunks and its list go |
| Storage.Store.CreateCheckResult | internal/repository/memory/checks.go:15-35 | one history row is added exactly if its log file exists and its id is free; no other row changes |
| Storage.Store.CreateLogFile | internal/repository/memory/logfiles.go:14-44 | succeeds exactly if the server exists and id and path are free |
| Storage.Store.GetLogFileByID | internal/repository/memory/logfiles.go:47-57 | the stored row or not found |
| Storage.Store.ListLogFilesByServer | internal/repository/memory/logfiles.go:60-79 | each of the server's log files once, strictly ascending by path |
| Storage.Store.UpdateLogFile | internal/repository/memory/logfiles.go:156-185 | succeeds exactly if the row exists, stays with its server and its path is free or its own; a new path moves the index entry |
| Storage.Store.DeleteLogFile | internal/repository/memory/logfiles.go:188-198 | the cascade, or not found |
| Storage.Store.DeleteLogFileLocked | internal/repository/memory/logfiles.go:216-245 | deleting row by row across six maps equals the cascade |
| Storage.Store.CreateServer | internal/repository/memory/servers.go:15-45 | succeeds exactly if id, name and host are free up to case folding; then exactly this row is stored under its id and no other map changes; an unset status becomes inactive and an unset manager the API |
| Storage.Store.GetServerByID | internal/repository/memory/servers.go:48-58 | the stored row or not found |
| Storage.CreateThenGet | internal/repository/memory/servers.go:15-58 | a server that was created is what the next lookup returns, with its defaults |
| Storage.Store.UpdateServer | internal/repository/memory/servers.go:161-179 | not found, then conflict with another server's name or host, then the whole row replaced, with an unset manager defaulted, and nothing else changed |
| Storage.Store.FindServerByNameOrHost | internal/repository/memory/servers.go:181-191 | finds a clash exactly if another server has the name or the host up to case folding |
| Storage.Store.DeleteServer | internal/repository/memory/servers.go:194-210 | deleting file by file, in any order, and then the server equals the cascade |
| Storage.Store.RecordServerSuccess | internal/repository/memory/servers.go:228-245 | the stored row, column by column: active, one more success, failures, error and backoff cleared, seen now, registration as before; no other row or map changes |
| Storage.Store.RecordServerFailure | internal/repository/memory/servers.go:248-268 | the stored row, column by column: in error, one more failure, the given error and backoff, successes, last seen time and registration as before; no other row or map changes |
| Prelude.PagesMakeUpTheList | internal/repository/memory/helpers.go:82-95 | a page and everything after it make up everything from its offset on; limit 0 is all of that; every page but the last is full |
| JobManager.Manager.constructor | internal/jobs/manager.go:88-108 | non-positive settings become 2 workers, 128 queued and 1000 kept jobs, all collections are empty |
| JobManager.Manager.Start | internal/jobs/manager.go:111-126 | only the first call does anything: workers are launched, all of them, under a live context, and the manager accepts |
| JobManager.Manager.Shutdown | internal/jobs/manager.go:129-156 | the first call stops accepting, closes the queue and ends the context; every call waits for the workers and reports whether they exited |
| JobManager.Manager.Submit | internal/jobs/manager.go:166-224 | equals the model's submit: shutting down, reuse by key, reuse by fingerprint with the key as an alias, queue full, or a new queued job; a new job is stored with the trimmed key and fingerprint and goes last into order and queue, otherwise jobs, order and queue stay as they were |
| JobManager.Manager.GetJob | internal/jobs/manager.go:227-236 | the kept job or not found |
| JobManager.Manager.StartRunning | internal/jobs/manager.go:301-314 | a kept job becomes running, started and not finished; no other job changes |
| JobManager.Manager.FinishSucceeded | internal/jobs/manager.go:317-340 | the job, unless it is trimmed, is succeeded without error; no other kept job changes; fingerprint released, history trimmed |
| JobManager.Manager.FinishFailed | internal/jobs/manager.go:343-358 | the job, unless it is trimmed, is failed with the given message; no other kept job changes; fingerprint released, history trimmed |
| JobManager.Manager.FinishCanceled | internal/jobs/manager.go:361-376 | the job, unless it is trimmed, is canceled with the text of the context error; no other kept job changes; fingerprint released, history trimmed |
| JobManager.Manager.ReleaseActiveFingerprint | internal/jobs/manager.go:379-386 | the fingerprint is released only if it still names this job |
| JobManager.Manager.TrimHistory | internal/jobs/manager.go:389-416 | the nested loop equals dropping the oldest completed job while the history is too long |
| JobHistory.TrimIsOnePass | internal/jobs/manager.go:389-416 | trimming terminates and equals one pass that drops the oldest completed jobs, as many as the history is too long by or all there are, keeping the order of the rest |
| JobHistory.DropOldestKeeps | internal/jobs/manager.go:389-416 | in that pass a job is dropped exactly if it is completed and fewer than that many completed jobs are older |
| JobInvariant.TrimKeepsActive | internal/jobs/manager.go:389-416 | trimming never drops an active job and changes no kept one |
| JobInvariant.TrimKeepsKeys | internal/jobs/manager.go:402-407 | an idempotency key disappears only with the job it names |
| JobAliases.DanglesAfterTrimIff | internal/jobs/manager.go:389-416 | after trimming a key names a job that is gone exactly if it did before, or is a second name of one of the oldest completed jobs, as many as the history is too long by |
| JobAliases.TrimDropsIff | internal/jobs/manager.go:389-416 | a job is dropped exactly if it is completed and fewer completed jobs are older than there are to drop |
| JobAliases.DanglingKeysAreUnbounded | internal/jobs/manager.go:186-197 | for every n a run after which one completed job is kept, nothing is queued or running, and the key index holds n keys of a job that is gone |
| JobInvariant.StepKeepsInv | internal/jobs/manager.go:166-416 | the coupled invariant over jobs, order, both indexes, queue and workers survives every mutex section and every worker step in any interleaving |
| JobInvariant.NoStaleFingerprint | internal/jobs/manager.go:186-197 | the branch of Submit that drops a stale fingerprint is never taken |
| JobRuns.EveryActiveJobIsInOnePlace | internal/jobs/manager.go:274-298 | in every reachable state an active job is in the queue once or held by one worker, completed jobs are nowhere, and the queue stays within its size |
| JobRuns.HistoryIsBounded | internal/jobs/manager.go:389-416 | in every reachable state the number of jobs is at most history limit plus queue size plus workers, and the order list names each once |
| JobRuns.FingerprintsAreUnique | internal/jobs/manager.go:186-219 | two queued or running jobs never share a fingerprint |
| JobRuns.StepMovesLegally | internal/jobs/manager.go:301-376 | queued to running, running to final, queued to canceled, and nothing about a completed job changes |
| JobRuns.CompletedJobsStay | internal/jobs/manager.go:301-376 | over whole runs a completed job keeps its record or is trimmed for good |
| JobRuns.TasksRunAtMostOnce | internal/jobs/manager.go:274-298 | no task runs twice, and every task that runs was accepted as a new job by a submission of the history |
| JobRuns.SubmitIsIdempotent | internal/jobs/manager.go:174-223 | once Submit with a key returned a job, every later accepted Submit with the key returns it and changes nothing while the job is kept, also if the key became an alias |
| JobRuns.RejectedSubmitChangesNothing | internal/jobs/manager.go:166-224 | a rejected Submit leaves jobs, order, queue and fingerprints alone, and it is rejected exactly on shutdown or when nothing can be reused and the queue is full |
| JobEndings.StepMovesRecord | internal/jobs/manager.go:301-376 | what an event does to the record of a kept job: the worker holding it marks it running, settles it as succeeded, failed with the message, or canceled just as its task ended, or cancels it unrun; no other event and no other worker changes it |
| JobEndings.NewRecord | internal/jobs/manager.go:200-221 | a job that appears was just accepted: queued, with the trimmed key and fingerprint, no error and no past, last in order and queue |
| JobEndings.EndingsHaveCauses | internal/jobs/manager.go:279-292 | every completed job of every reachable state goes back to one event of the run that gave it just this status and error: its task returned that verdict, or a worker that found the context ended canceled it unrun |
| JobEndings.VerdictStays | internal/jobs/manager.go:317-376 | however a task ended, the record of its job shows that from then on, over any run, for as long as it is kept |
| JobEndings.QueuedIsCanceledOnlyAfterEnd | internal/jobs/manager.go:279-282 | a queued job is canceled only if the manager's context had ended before, and it never ran |
| JobEndings.CheckDecides | internal/jobs/manager.go:279-284 | which way a check of the context goes: under a live context the worker's only next step, whatever happens meanwhile, is to launch its task; after the end it is to cancel the job, which is never run |
| JobEndings.FirstComeFirstServed | internal/jobs/manager.go:208-221 | in every reachable state order list and queue hold jobs in the order they were accepted, and whatever still waits was accepted after everything taken before |
| JobShutdown.ShutdownDrains | internal/jobs/manager.go:129-156 | once the queue of a started manager is closed, worker steps are bounded by the work left, and a run with none left has all workers exited, every job completed, queue and fingerprints empty |
| Locks.Manager.TryLock | crons/locks/manager.go:18-32 | taken exactly if free, without waiting |
| Locks.Manager.Unlock | crons/locks/manager.go:27-31 | the key is free afterwards |
| Locks.ServersAreIsolated | crons/collection/runner.go:91-106 | in any interleaving at most one operation is inside a server's locked section, and no key stays locked when none is inside |
| Locks.TurnedAwayIff | crons/collection/runner.go:102-106 | an operation is turned away exactly if another one is inside the same server's section |
| Locks.ExtraUnlockIsHarmlessIff | crons/locks/manager.go:27-31 | in every reachable state an extra unlock of a server keeps isolation exactly if no operation is inside its section; if one is, the next arrival gets in beside it |
| Locks.SecondUnlockBreaksIsolation | crons/locks/manager.go:27-31 | a concrete run: unlocking twice frees a section somebody else is in |
| Pools.SweepsAreBoundedAndCounted | crons/collection/runner.go:138-171 | in-flight goroutines never exceed the pool size; success, failure and tampered counts are the numbers of results recorded with that ending, and the kept error is that of the first failed one; on return every launched log file was recorded exactly once, and everything was launched unless the sweep was canceled |
| Pools.SweepsReturn | crons/integrity/runner.go:139-186 | every sweep returns: its steps are bounded and it can always take one until it returned |
| Pools.ReportsAreJustified | crons/integrity/runner.go:128-135 | a returned sweep reports success exactly if no log file ended in an error (nor, for checks, tampered with), failure exactly if some were launched and all ended in errors, with the error of the first, and degraded otherwise |
| Pools.SuccessIsBackedIff | crons/collection/runner.go:128-146 | a returned sweep over some log files launched none exactly if its context ended before the launcher first looked at it; then collection and check report success all the same; otherwise success is backed by a log file that ended well, and none ended in an error |
| ServerSweeps.SweepIsBoundedAndCounted | crons/collection/runner.go:68-171 | the pool over servers and a pool over log files inside each run as such pools do on their own; in every interleaving the servers worked on stay within the outer size and the log files within the product of both; on return every started log file pool has returned and counted all it launched, which is everything unless canceled |
| ServerSweeps.ServerReportsAreJustified | crons/integrity/runner.go:121-186 | what the goroutine of a server has to report follows from how the log files of that server ended, counted from the events of the whole sweep, whatever the other servers did in between |
| ServerSweeps.SweepReturns | crons/collection/runner.go:68-171 | a whole sweep returns: its steps are bounded by its servers and log files, and until it returned some goroutine can take a step |
| Pools.CanceledSweepReportsSuccess | crons/collection/runner.go:138-146 | a concrete sweep canceled before its first launch that reports success |
| Discovery.ParseDiscoveredOutput | internal/service/discovery/classify.go:37-62 | the loop returns the trimmed non-blank lines, each where it first occurs |
| Discovery.FirstOccurrencesAreUnique | internal/service/discovery/classify.go:37-62 | every discovered path once, with its classification, and nothing else |
| Discovery.Sync | internal/service/discovery/service.go:93-152 | succeeds exactly if every new path can get its row, reconciles row by row, and writes nothing when everything is in line already |
| Discovery.SyncIsExact | internal/service/discovery/service.go:93-152 | afterwards a log file is active exactly if discovered, one correctly typed row per path; added rows start with nothing collected, undiscovered ones keep their type, nothing lost, other servers and tables untouched |
| Discovery.SyncIsIdempotent | internal/service/discovery/service.go:93-152 | with unique paths a sync leaves nothing for an identical second one to write |
| Discovery.UniquePathsAreCreatable | internal/service/discovery/service.go:112-134 | for an existing server a sync fails exactly if a path that is not stored occurs twice |
| Health.NextBackoffUntil | internal/service/health/service.go:98-120 | the doubling loop in 64-bit arithmetic, without overflow, computes the model's delay |
| Health.DelayIs | internal/service/health/service.go:106-116 | closed form: the doubled base capped at the maximum, rounded up when one short of it |
| Health.DelayIsCappedDoublingIff | internal/service/health/service.go:106-116 | the delay is min(base doubled, maximum) exactly if the doubled base is not one short of the maximum; always for an even maximum; never more than one above |
| Health.OddMaximumRoundsUp | internal/service/health/service.go:106-116 | a concrete odd maximum for which the delay is one above the capped doubling |
| Health.DelayGrows | internal/service/health/service.go:98-120 | more failures never shorten the delay, which lies between the smaller of base and maximum and the maximum |
| Health.LastError | internal/service/health/service.go:152-160 | the message from its beginning, or a stand-in for an empty one, cut at the configured number of characters |
| Health.RecordSuccess | internal/service/health/service.go:48-53 | the stored row after a success, column by column: active, one more success, failures, error and backoff cleared, seen now; nothing else changes |
| Health.RecordFailure | internal/service/health/service.go:56-64 | the stored row after a failure, column by column: in error, the stored counter goes on, the detail is the message as far as it fits, the backoff follows the counter the caller saw; nothing else changes |
| Health.WriteBack | internal/service/health/service.go:67-96 | load, change, store: a partial failure leaves the server degraded with the detail, failures cleared and seen now; a manual reset clears failures, error and backoff and turns an error into active; nothing else changes |
| Health.CountersOverRuns | internal/service/health/service.go:48-120 | over runs the failure counter counts failures since the last other report, successes are all counted, and the backoff follows from both |
| Health.LastReportShows | internal/service/health/service.go:48-96 | over runs the stored status, last error and last seen time are those the last report that speaks of them gave, and the registration never changes |
| Health.OutdatedCopiesIff | internal/service/health/service.go:56-64 | over runs in which callers saw outdated counts, counters are right all the same, and the next try is set right exactly if the last report is no failure or its count comes to the same time; a caller who saw fewer failures sets no later time |
| Health.OutdatedCopyWaitsTooShort | internal/service/health/service.go:56-64 | a concrete run of two failures recorded from the same copy, in which the second waits as short as the first |
| Health.SkippedIff | internal/service/health/service.go:40-45 | a server is skipped exactly while its failures in a row reached the threshold and the delay since the last one is not over |
| Health.RepeatedFailuresWaitLonger | internal/service/health/service.go:98-120 | each further failure waits at least as long, between the smaller of base and maximum and the maximum |

## Left out

- SSH connections, remote commands, operating system detection and identity parsing: a read is the lines above a
  number or an error, an inspection is an identity or an error.
- What the remote commands print to their error output, which the executor appends: a successful read prints nothing
  there.
- PostgreSQL storage, HTTP handlers, command line, configuration, encryption and hash internals.
- Filtered, searched and sorted listings: easy members compared with the rest.
- Timestamps (only presence or absence matters to a decision), metadata and byte offsets.
- Object identity of stored rows and jobs: the maps hold values, and callers get copies as the source's clones do.
- Quoting of unprintable characters in messages, other than line ends and tabs.
- Unicode case folding and path classification are parameters; string lengths count characters, not bytes.
- 64-bit limits of counters, line numbers and page arithmetic, which need astronomically many rows; durations and
  parsed line numbers do have their width.
- The non-atomic fallback of saving entries and chunks: both repositories provide the batch write.
- Failing deletes while a rotated file is reset: the in-memory repository's deletes cannot fail.
- The lost update between load and store of a server's health row.
- Isolation switched off, starting a job manager after its shutdown, panicking tasks, and job results beyond status
  and error.
- The locks inside the two-level sweep: a server whose lock is taken is one that starts no log file pool.
- Storage.Store.NewId: draws a fresh id deterministically where the source draws a random one.
- CollectorService.CollectLogFile: needs the stored log file row as its snapshot, as callers load it just before.
- CollectorService.SaveEntriesAndChunks: needs at least one chunk, because without chunks the source takes the
  non-atomic fallback.
- Health.LastError: counts characters where the source cuts bytes.

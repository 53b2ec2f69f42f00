/** The turns of a collection run on a repository that others use as well: each is one repository call and changes what
    the model says, for its own log file only. */
module RunTurns {
  import opened Prelude
  import opened Models
  import opened Chunking
  import opened Batches
  import opened Collector
  import opened Tables
  import opened TableOps
  import opened Views
  import opened Storage
  import opened CollectorService
  import opened RunSteps

  /** A run in progress: the log file row it was started with, what it meets, and its next turn. */
  datatype Run = Run(cfg: Config, file: LogFile, c: Circumstances, phase: Phase)

  ghost function Now(run: Run, t: Tables): Progress {
    Progress(run.phase, View(t, run.file.id))
  }

  ghost predicate Ready(cfg: Config, phase: Phase, fs: FileStore) {
    match phase
    case Beginning => true
    case ClearingEntries(lines) => SortedLines(lines)
    case ClearingChunks(lines) => SortedLines(lines) && fs.entries == []
    case Planning(lines, start) => SortedLines(lines) && start == MaxLine(fs.entries)
    case Saving(_, batches, _, _) => Saveable(cfg.logFileId, fs, batches)
    case Over(_) => true
  }

  ghost predicate Fits(t: Tables, run: Run) {
    ValidConfig(run.cfg) && SortedReads(run.c) && run.cfg.logFileId == run.file.id && run.file.id in t.logFiles &&
    (!run.phase.Over? ==> t.logFiles[run.file.id] == run.file) && Ready(run.cfg, run.phase, View(t, run.file.id))
  }

  /** One turn of a run changed the repository as the model says, for this log file only. */
  ghost predicate TookTurn(t: Tables, run: Run, t': Tables, run': Run)
    requires ValidConfig(run.cfg)
  {
    run' == run.(phase := run'.phase) && Now(run', t') == Turn(run.cfg, run.c, Now(run, t)) && Fits(t', run') &&
    OthersUntouched(t, t', run.file.id)
  }

  lemma {:induction false} NothingTouched(t: Tables, file: string)
    ensures OthersUntouched(t, t, file)
  {
  }

  // ---- The turns ----

  method Begin(store: Store, run: Run) returns (run': Run)
    requires store.Valid() && Fits(store.State(), run) && run.phase.Beginning?
    ensures TookTurn(store.State(), run, store.State(), run')
  {
    NothingTouched(store.State(), run.file.id);
    var reset, maxLine := StartOfRun(store, run.file, run.c.inspected, run.c);
    var got := run.c.read(maxLine);
    if got.None? {
      return run.(phase := Over(Failure(Unavailable)));
    }
    run' := run.(phase := if reset then ClearingEntries(got.value) else Planning(got.value, maxLine));
  }

  ghost predicate OnlyEntriesCleared(t: Tables, t': Tables, file: string, x: string) {
    EntryRows(t', x) == (if x == file then [] else EntryRows(t, x)) && ChunkRows(t', x) == ChunkRows(t, x)
  }

  ghost predicate OnlyChunksCleared(t: Tables, t': Tables, file: string, x: string) {
    ChunkRows(t', x) == (if x == file then [] else ChunkRows(t, x)) && EntryRows(t', x) == EntryRows(t, x)
  }

  lemma {:induction false} ViewOfClearedEntries(t: Tables, t': Tables, file: string)
    requires OnlyRowsDiffer(t, t') && forall x :: OnlyEntriesCleared(t, t', file, x)
    ensures View(t', file) == View(t, file).(entries := []) && OthersUntouched(t, t', file)
  {
    assert OnlyEntriesCleared(t, t', file, file);
    forall other | other != file ensures View(t', other) == View(t, other) {
      assert OnlyEntriesCleared(t, t', file, other);
    }
  }

  lemma {:induction false} ViewOfClearedChunks(t: Tables, t': Tables, file: string)
    requires OnlyRowsDiffer(t, t') && forall x :: OnlyChunksCleared(t, t', file, x)
    ensures View(t', file) == View(t, file).(chunks := []) && OthersUntouched(t, t', file)
  {
    assert OnlyChunksCleared(t, t', file, file);
    forall other | other != file ensures View(t', other) == View(t, other) {
      assert OnlyChunksCleared(t, t', file, other);
    }
  }

  lemma {:induction false} ViewAfterEntriesDropped(t: Tables, file: string)
    requires Consistent(t)
    ensures View(DropEntries(t, {file}), file) == View(t, file).(entries := [])
    ensures OthersUntouched(t, DropEntries(t, {file}), file)
  {
    var t' := DropEntries(t, {file});
    forall x ensures OnlyEntriesCleared(t, t', file, x) {
      EntriesAfterDrop(t, file, x);
      ChunkRowsDependOn(t, t', x);
    }
    ViewOfClearedEntries(t, t', file);
  }

  lemma {:induction false} ViewAfterChunksDropped(t: Tables, file: string)
    requires Consistent(t)
    ensures View(DropChunks(t, {file}), file) == View(t, file).(chunks := [])
    ensures OthersUntouched(t, DropChunks(t, {file}), file)
  {
    var t' := DropChunks(t, {file});
    forall x ensures OnlyChunksCleared(t, t', file, x) {
      ChunksAfterDrop(t, file, x);
      EntryRowsDependOn(t, t', x);
    }
    ViewOfClearedChunks(t, t', file);
  }

  method ClearEntries(store: Store, run: Run) returns (run': Run)
    requires store.Valid() && Fits(store.State(), run) && run.phase.ClearingEntries?
    modifies store
    ensures store.Valid() && TookTurn(old(store.State()), run, store.State(), run')
  {
    ViewAfterEntriesDropped(store.State(), run.file.id);
    store.DeleteLogEntriesByLogFile(run.file.id);
    run' := run.(phase := ClearingChunks(run.phase.lines));
  }

  method ClearChunks(store: Store, run: Run) returns (run': Run)
    requires store.Valid() && Fits(store.State(), run) && run.phase.ClearingChunks?
    modifies store
    ensures store.Valid() && TookTurn(old(store.State()), run, store.State(), run')
  {
    ViewAfterChunksDropped(store.State(), run.file.id);
    store.DeleteLogChunksByLogFile(run.file.id);
    run' := run.(phase := Planning(run.phase.lines, 0));
  }

  method PlanBatches(store: Store, cfg: Config, entries: seq<LogEntry>) returns (batches: seq<Batch>)
    requires store.Valid() && ValidConfig(cfg)
    ensures batches == BatchesFor(cfg, entries, NextChunkNumber(View(store.State(), cfg.logFileId).chunks))
  {
    batches := [];
    if |entries| > 0 {
      var latest := LatestChunkNumber(store, cfg.logFileId);
      var chunks := BuildChunks(cfg, entries, latest);
      batches := SplitEntryChunkBatches(entries, chunks, cfg.options.batchSize);
    }
  }

  method Plan(store: Store, run: Run) returns (run': Run)
    requires store.Valid() && Fits(store.State(), run) && run.phase.Planning?
    ensures TookTurn(store.State(), run, store.State(), run')
  {
    var entries := EntriesFromLines(run.cfg, run.phase.lines, run.phase.start);
    var batches := PlanBatches(store, run.cfg, entries);
    PlanningTookTurn(store.State(), run, entries, batches);
    run' := run.(phase := Saving(run.phase.lines, batches, run.c.budget, |entries|));
  }

  /** The turn of a run that plans its batches. */
  lemma {:induction false} PlanningTookTurn(t: Tables, run: Run, entries: seq<LogEntry>, batches: seq<Batch>)
    requires Consistent(t) && Fits(t, run) && run.phase.Planning?
    requires entries == NewEntries(run.cfg, run.phase.lines, run.phase.start)
    requires batches == BatchesFor(run.cfg, entries, NextChunkNumber(View(t, run.cfg.logFileId).chunks))
    ensures TookTurn(t, run, t, run.(phase := Saving(run.phase.lines, batches, run.c.budget, |entries|)))
  {
    NothingTouched(t, run.file.id);
    assert Saveable(run.cfg.logFileId, View(t, run.cfg.logFileId), batches) by {
      ViewMeasures(t, run.cfg.logFileId);
      PlanOnStore(t, run.cfg, run.phase.lines);
    }
  }

  /** The turn of a run that saves a batch, seen from the tables before and after. */
  lemma {:induction false} SavingTookTurn(t: Tables, run: Run, t': Tables, ok: bool)
    requires Fits(t, run) && run.phase.Saving? && run.phase.left > 0 && run.phase.batches != []
    requires ok <==> SaveBatch(View(t, run.file.id), run.phase.batches[0]).Some?
    requires ok ==> View(t', run.file.id) == SaveBatch(View(t, run.file.id), run.phase.batches[0]).value
    requires !ok ==> t' == t
    requires OthersUntouched(t, t', run.file.id) && t'.logFiles == t.logFiles
    ensures TookTurn(t, run, t', run.(phase := AfterSave(run, ok)))
  {
    assert run.phase.batches[0..] == run.phase.batches;
    SaveStep(run.file.id, View(t, run.file.id), run.phase.batches, 0, run.phase.left);
  }

  function AfterSave(run: Run, ok: bool): Phase
    requires run.phase.Saving? && run.phase.left > 0 && run.phase.batches != []
  {
    if ok then Saving(run.phase.lines, run.phase.batches[1..], run.phase.left - 1, run.phase.added)
    else Over(Failure(Unavailable))
  }

  method SaveNext(store: Store, run: Run) returns (run': Run)
    requires store.Valid() && Fits(store.State(), run) && run.phase.Saving?
    requires run.phase.left > 0 && run.phase.batches != []
    modifies store
    ensures store.Valid() && TookTurn(old(store.State()), run, store.State(), run')
  {
    ghost var t := store.State();
    assert Continues(run.file.id, View(t, run.file.id), run.phase.batches[0]) by {
      assert run.phase.batches[0..] == run.phase.batches;
      SaveStep(run.file.id, View(t, run.file.id), run.phase.batches, 0, run.phase.left);
    }
    var ok := SaveOneBatch(store, run.file.id, run.phase.batches[0]);
    SavingTookTurn(t, run, store.State(), ok);
    run' := run.(phase := AfterSave(run, ok));
  }

  lemma {:induction false} UpdatingTookTurn(t: Tables, run: Run, t': Tables)
    requires Fits(t, run) && run.phase.Saving? && run.phase.left > 0 && run.phase.batches == []
    requires run.file.id in t'.logFiles && OthersUntouched(t, t', run.file.id)
    requires View(t', run.file.id) == Identified(View(t, run.file.id), run.c)
    ensures TookTurn(t, run, t', run.(phase := Over(Success(run.phase.added))))
  {
  }

  method UpdateRow(store: Store, run: Run) returns (run': Run)
    requires store.Valid() && Fits(store.State(), run) && run.phase.Saving?
    requires run.phase.left > 0 && run.phase.batches == []
    modifies store
    ensures store.Valid() && TookTurn(old(store.State()), run, store.State(), run')
  {
    ghost var t := store.State();
    assert View(t, run.file.id).identity == run.file.identity;
    var reset := run.c.inspected.Some? && ShouldReset(run.file.identity, run.c.inspected.value);
    UpdateScannedRow(store, run.file, reset, run.c.inspected, run.phase.lines);
    UpdatingTookTurn(t, run, store.State());
    run' := run.(phase := Over(Success(run.phase.added)));
  }

  method TakeTurn(store: Store, run: Run) returns (run': Run)
    requires store.Valid() && Fits(store.State(), run)
    modifies store
    ensures store.Valid() && TookTurn(old(store.State()), run, store.State(), run')
  {
    match run.phase
    case Beginning => run' := Begin(store, run);
    case ClearingEntries(_) => run' := ClearEntries(store, run);
    case ClearingChunks(_) => run' := ClearChunks(store, run);
    case Planning(_, _) => run' := Plan(store, run);
    case Saving(_, batches, left, _) =>
      if left == 0 {
        NothingTouched(store.State(), run.file.id);
        run' := run.(phase := Over(Failure(Unavailable)));
      } else if batches == [] {
        run' := UpdateRow(store, run);
      } else {
        run' := SaveNext(store, run);
      }
    case Over(_) =>
      NothingTouched(store.State(), run.file.id);
      run' := run;
  }
}

/** The turns of an integrity check on a repository that others use as well. */
module CheckTurns {
  import opened Prelude
  import opened Models
  import opened Hashing
  import opened Integrity
  import opened FastPath
  import opened EndToEnd
  import opened Verdicts
  import opened Collector
  import opened Tables
  import opened TableOps
  import opened Views
  import opened Storage
  import opened IntegrityService
  import opened CheckSteps
  import Sorting

  /** A check in progress: the caller's copy of the log file, what the check meets, and its next turn. */
  datatype CheckRun = CheckRun(file: LogFile, q: Inquiry, readError: string, phase: CheckPhase)

  ghost predicate CheckFits(t: Tables, run: CheckRun) {
    run.file.id in t.logFiles && run.q.copy == run.file.identity
  }

  /** The history row a check leaves, new to the table. */
  ghost predicate IsRowOf(t: Tables, run: CheckRun, report: CheckReport, row: CheckResult) {
    row == ResultRow(run.file, report, run.readError).(id := row.id) && row.id !in t.checks &&
    RowCarries(run.file, report, run.readError, row)
  }

  /** One turn: nothing changes but the check's own progress, until it records its report as one new history row. */
  ghost predicate TookCheckTurn(t: Tables, run: CheckRun, t': Tables, run': CheckRun) {
    run' == run.(phase := run'.phase) &&
    match run.phase
    case Recorded(_, _) => t' == t && run' == run
    case Recording(report) =>
      run'.phase.Recorded? && run'.phase.report == report && IsRowOf(t, run, report, run'.phase.row) &&
      t' == PutCheck(t, run'.phase.row) && t'.checks == t.checks[run'.phase.row.id := run'.phase.row]
    case _ => t' == t && run'.phase == CheckTurn(run.q, View(t, run.file.id), run.phase)
  }

  // ---- The turns ----

  method Inspect(run: CheckRun, ghost fs: FileStore) returns (phase: CheckPhase)
    requires run.phase.Inspecting? && run.q.copy == run.file.identity
    ensures phase == CheckTurn(run.q, fs, run.phase)
  {
    if run.q.inspected.Some? && ShouldReset(run.file.identity, run.q.inspected.value) {
      return Recording(SourceReplaced);
    }
    if run.q.now.None? {
      return Recording(SourceUnreadable);
    }
    var current := IndexByLine(run.q.now.value);
    return Counting(current);
  }

  method Count(store: Store, run: CheckRun) returns (phase: CheckPhase)
    requires store.Valid() && run.phase.Counting?
    ensures phase == CheckTurn(run.q, View(store.State(), run.file.id), run.phase)
  {
    var total := store.CountLogEntries(run.file.id);
    return Listing(run.phase.current, total);
  }

  method List(store: Store, run: CheckRun) returns (phase: CheckPhase)
    requires store.Valid() && run.phase.Listing?
    ensures phase == CheckTurn(run.q, View(store.State(), run.file.id), run.phase)
  {
    var chunks := store.ListLogChunks(run.file.id, 0, 0);
    if |chunks| == 0 {
      return ComparingAll(run.phase.current, run.phase.total);
    }
    SortIgnoresIds(chunks);
    // Ids play no part from here on.
    chunks := EraseChunkIds(Sorting.Sort(chunks, StartsBefore));
    return Scanning(run.phase.current, run.phase.total, chunks, Scan([], {}));
  }

  method CompareAll(store: Store, run: CheckRun) returns (phase: CheckPhase)
    requires store.Valid() && run.phase.ComparingAll?
    ensures phase == CheckTurn(run.q, View(store.State(), run.file.id), run.phase)
  {
    var all := store.ListLogEntries(run.file.id, 0, 0);
    var tampered := CompareStoredEntries(run.q.h, all, run.phase.current);
    CompareIgnoresIds(run.q.h, all, run.phase.current);
    return Recording(Verdict(run.phase.total, tampered));
  }

  function LinesReported(tampered: seq<TamperedEntry>): set<int> {
    set i | 0 <= i < |tampered| :: tampered[i].lineNumber
  }

  lemma {:induction false} ReportedLinesAreTracked(tampered: seq<TamperedEntry>)
    ensures TracksLines(LinesReported(tampered), tampered)
  {
    forall n ensures n in LinesReported(tampered) <==> Reported(tampered, n) {
    }
  }

  lemma {:induction false} ScanOfView(h: Hasher, rows: seq<LogEntry>, current: map<int, string>, scan: Scan,
                                      c: LogChunk)
    ensures ScanChunk(h, EraseEntryIds(rows), current, scan, c) == ScanChunk(h, rows, current, scan, c)
  {
    var erased := EraseEntryIds(rows);
    ScanChunkIgnoresIds(h, rows, current, scan, c);
    ScanChunkIgnoresIds(h, erased, current, scan, c);
    assert EraseEntryIds(erased) == erased;
  }

  method ScanNext(store: Store, run: CheckRun) returns (phase: CheckPhase)
    requires store.Valid() && run.phase.Scanning? && run.phase.chunks != []
    ensures phase == CheckTurn(run.q, View(store.State(), run.file.id), run.phase)
  {
    var scan, chunk := run.phase.scan, run.phase.chunks[0];
    ReportedLinesAreTracked(scan.tampered);
    var tampered, lines, covered := ScanNextChunk(store, run.q.h, run.file.id, run.phase.current, scan.tampered,
                                                  LinesReported(scan.tampered), scan.covered, chunk);
    ScanOfView(run.q.h, EntryRows(store.State(), run.file.id), run.phase.current, scan, chunk);
    return Scanning(run.phase.current, run.phase.total, run.phase.chunks[1..], Scan(tampered, covered));
  }

  lemma {:induction false} ViewSize(t: Tables, file: string)
    ensures |View(t, file).entries| == |EntryRows(t, file)|
  {
  }

  method EndScan(store: Store, run: CheckRun) returns (phase: CheckPhase)
    requires store.Valid() && run.phase.Scanning? && run.phase.chunks == []
    ensures phase == CheckTurn(run.q, View(store.State(), run.file.id), run.phase)
  {
    var current, total, scan := run.phase.current, run.phase.total, run.phase.scan;
    ViewSize(store.State(), run.file.id);
    ScanEnds(run.q, View(store.State(), run.file.id), current, total, scan);
    var stored := store.CountLogEntries(run.file.id);
    phase := if |scan.covered| < stored then ComparingRest(current, total, scan)
             else Recording(Verdict(total, scan.tampered));
  }

  method CompareRest(store: Store, run: CheckRun) returns (phase: CheckPhase)
    requires store.Valid() && run.phase.ComparingRest?
    ensures phase == CheckTurn(run.q, View(store.State(), run.file.id), run.phase)
  {
    var scan := run.phase.scan;
    var all := store.ListLogEntries(run.file.id, 0, 0);
    var left := UncoveredEntries(all, scan.covered);
    var items := CompareStoredEntries(run.q.h, left, run.phase.current);
    UncoveredIgnoresIds(all, scan.covered);
    CompareIgnoresIds(run.q.h, left, run.phase.current);
    ReportedLinesAreTracked(scan.tampered);
    var tampered, lines := AppendUniqueTampered(scan.tampered, LinesReported(scan.tampered), items);
    return Recording(Verdict(run.phase.total, tampered));
  }

  method Record(store: Store, run: CheckRun) returns (phase: CheckPhase)
    requires store.Valid() && CheckFits(store.State(), run) && run.phase.Recording?
    modifies store
    ensures store.Valid() && TookCheckTurn(old(store.State()), run, store.State(), run.(phase := phase))
  {
    var r := RecordReport(store, run.file, run.phase.report, run.readError);
    return Recorded(run.phase.report, r.value);
  }

  method Look(store: Store, run: CheckRun) returns (phase: CheckPhase)
    requires store.Valid() && CheckFits(store.State(), run) && !run.phase.Recording? && !run.phase.Recorded?
    ensures phase == CheckTurn(run.q, View(store.State(), run.file.id), run.phase)
  {
    match run.phase
    case Inspecting => phase := Inspect(run, View(store.State(), run.file.id));
    case Counting(_) => phase := Count(store, run);
    case Listing(_, _) => phase := List(store, run);
    case ComparingAll(_, _) => phase := CompareAll(store, run);
    case Scanning(_, _, chunks, _) =>
      if chunks == [] {
        phase := EndScan(store, run);
      } else {
        phase := ScanNext(store, run);
      }
    case ComparingRest(_, _, _) => phase := CompareRest(store, run);
  }

  method TakeCheckTurn(store: Store, run: CheckRun) returns (run': CheckRun)
    requires store.Valid() && CheckFits(store.State(), run)
    modifies store
    ensures store.Valid() && TookCheckTurn(old(store.State()), run, store.State(), run')
  {
    if run.phase.Recorded? {
      return run;
    }
    var phase: CheckPhase;
    if run.phase.Recording? {
      phase := Record(store, run);
    } else {
      phase := Look(store, run);
    }
    run' := run.(phase := phase);
  }
}

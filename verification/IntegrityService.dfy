/** The integrity check running on the in-memory repository, proved equal to the check on one log file's stored state.
    */
module IntegrityService {
  import opened Prelude
  import opened Models
  import opened Hashing
  import opened Chunking
  import opened Collector
  import opened Integrity
  import opened FastPath
  import opened EndToEnd
  import opened Verdicts
  import History
  import opened Tables
  import opened TableOps
  import opened Views
  import opened Storage
  import Sorting
  import Text

  // ---- Row ids play no part in the check ----

  lemma {:induction false} CompareIgnoresIds(h: Hasher, rows: seq<LogEntry>, current: map<int, string>)
    ensures CompareStored(h, EraseEntryIds(rows), current) == CompareStored(h, rows, current)
  {
    if rows != [] {
      var n := |rows| - 1;
      CompareIgnoresIds(h, rows[..n], current);
      assert EraseEntryIds(rows)[..n] == EraseEntryIds(rows[..n]);
    }
  }

  lemma {:induction false} InRangeIgnoresIds(rows: seq<LogEntry>, from: int, to: int)
    ensures InRange(EraseEntryIds(rows), from, to) == EraseEntryIds(InRange(rows, from, to))
  {
    if rows != [] {
      var n := |rows| - 1;
      InRangeIgnoresIds(rows[..n], from, to);
      assert EraseEntryIds(rows)[..n] == EraseEntryIds(rows[..n]);
      EraseEntryIdsConcat(InRange(rows[..n], from, to), [rows[n]]);
    }
  }

  lemma {:induction false} UncoveredIgnoresIds(rows: seq<LogEntry>, covered: set<int>)
    ensures Uncovered(EraseEntryIds(rows), covered) == EraseEntryIds(Uncovered(rows, covered))
  {
    if rows != [] {
      var n := |rows| - 1;
      UncoveredIgnoresIds(rows[..n], covered);
      assert EraseEntryIds(rows)[..n] == EraseEntryIds(rows[..n]);
      EraseEntryIdsConcat(Uncovered(rows[..n], covered), [rows[n]]);
    }
  }

  lemma {:induction false} LinesIgnoreIds(rows: seq<LogEntry>)
    ensures LinesOf(EraseEntryIds(rows)) == LinesOf(rows)
  {
    var erased := EraseEntryIds(rows);
    forall n | n in LinesOf(rows) ensures n in LinesOf(erased) {
      var i :| 0 <= i < |rows| && rows[i].lineNumber == n;
      assert erased[i].lineNumber == n;
    }
    forall n | n in LinesOf(erased) ensures n in LinesOf(rows) {
      var i :| 0 <= i < |erased| && erased[i].lineNumber == n;
      assert rows[i].lineNumber == n;
    }
  }

  lemma {:induction false} HashIgnoresIds(h: Hasher, rows: seq<LogEntry>, current: map<int, string>, c: LogChunk)
    ensures HashOfCurrentChunk(h, EraseEntryIds(rows), current, c.(id := "")) == HashOfCurrentChunk(h, rows, current, c)
  {
    var erased := EraseEntryIds(rows);
    assert forall i :: 0 <= i < |rows| ==> erased[i].lineNumber == rows[i].lineNumber;
    if AllPresent(rows, current) {
      assert AllPresent(erased, current);
      assert CurrentHashes(h, erased, current) == CurrentHashes(h, rows, current);
    } else {
      var i :| 0 <= i < |rows| && rows[i].lineNumber !in current;
      assert erased[i].lineNumber !in current;
    }
  }

  lemma {:induction false} ScanChunkIgnoresIds(h: Hasher, rows: seq<LogEntry>, current: map<int, string>, scan: Scan,
                                               c: LogChunk)
    ensures ScanChunk(h, EraseEntryIds(rows), current, scan, c.(id := "")) == ScanChunk(h, rows, current, scan, c)
  {
    var own := InRange(rows, c.fromLine, c.toLine);
    InRangeIgnoresIds(rows, c.fromLine, c.toLine);
    HashIgnoresIds(h, own, current, c);
    CompareIgnoresIds(h, own, current);
    LinesIgnoreIds(own);
  }

  lemma {:induction false} ScanIgnoresIds(h: Hasher, rows: seq<LogEntry>, current: map<int, string>,
                                          chunks: seq<LogChunk>)
    ensures ScanChunks(h, EraseEntryIds(rows), current, EraseChunkIds(chunks)) == ScanChunks(h, rows, current, chunks)
  {
    if chunks != [] {
      var n := |chunks| - 1;
      ScanIgnoresIds(h, rows, current, chunks[..n]);
      assert EraseChunkIds(chunks)[..n] == EraseChunkIds(chunks[..n]);
      ScanChunkIgnoresIds(h, rows, current, ScanChunks(h, rows, current, chunks[..n]), chunks[n]);
    }
  }

  lemma {:induction false} InsertIgnoresIds(chunks: seq<LogChunk>, c: LogChunk)
    ensures Sorting.Insert(EraseChunkIds(chunks), c.(id := ""), StartsBefore) ==
              EraseChunkIds(Sorting.Insert(chunks, c, StartsBefore))
  {
    var erased := EraseChunkIds(chunks);
    if chunks != [] && StartsBefore(c, chunks[|chunks| - 1]) {
      var n := |chunks| - 1;
      assert erased[..n] == EraseChunkIds(chunks[..n]);
      InsertIgnoresIds(chunks[..n], c);
      EraseChunkIdsConcat(Sorting.Insert(chunks[..n], c, StartsBefore), [chunks[n]]);
    } else {
      EraseChunkIdsConcat(chunks, [c]);
    }
  }

  lemma {:induction false} SortIgnoresIds(chunks: seq<LogChunk>)
    ensures Sorting.Sort(EraseChunkIds(chunks), StartsBefore) == EraseChunkIds(Sorting.Sort(chunks, StartsBefore))
  {
    if chunks != [] {
      var n := |chunks| - 1;
      assert EraseChunkIds(chunks)[..n] == EraseChunkIds(chunks[..n]);
      SortIgnoresIds(chunks[..n]);
      InsertIgnoresIds(Sorting.Sort(chunks[..n], StartsBefore), chunks[n]);
    }
  }

  lemma {:induction false} FindTamperedIgnoresIds(h: Hasher, rows: seq<LogEntry>, chunks: seq<LogChunk>,
                                                  current: map<int, string>)
    ensures FindTampered(h, EraseEntryIds(rows), EraseChunkIds(chunks), current) ==
            FindTampered(h, rows, chunks, current)
  {
    CompareIgnoresIds(h, rows, current);
    if chunks != [] {
      var sorted := Sorting.Sort(chunks, StartsBefore);
      SortIgnoresIds(chunks);
      ScanIgnoresIds(h, rows, current, sorted);
      var covered := ScanChunks(h, rows, current, sorted).covered;
      UncoveredIgnoresIds(rows, covered);
      CompareIgnoresIds(h, Uncovered(rows, covered), current);
    }
  }

  // ---- The check as the service runs it ----

  method UncoveredEntries(entries: seq<LogEntry>, covered: set<int>) returns (left: seq<LogEntry>)
    ensures left == Uncovered(entries, covered)
  {
    left := [];
    for i := 0 to |entries|
      invariant left == Uncovered(entries[..i], covered)
    {
      assert entries[..i + 1][..i] == entries[..i];
      if entries[i].lineNumber in covered {
        continue;
      }
      left := left + [entries[i]];
    }
    assert entries[..|entries|] == entries;
  }

  method CoverLines(covered: set<int>, rows: seq<LogEntry>) returns (covered': set<int>)
    ensures covered' == covered + LinesOf(rows)
  {
    covered' := covered;
    for i := 0 to |rows|
      invariant covered' == covered + LinesOf(rows[..i])
    {
      LinesOfNext(rows, i);
      covered' := covered' + {rows[i].lineNumber};
    }
    assert rows[..|rows|] == rows;
  }

  lemma {:induction false} LinesOfNext(rows: seq<LogEntry>, i: nat)
    requires i < |rows|
    ensures LinesOf(rows[..i + 1]) == LinesOf(rows[..i]) + {rows[i].lineNumber}
  {
    assert rows[..i + 1] == rows[..i] + [rows[i]];
    History.LinesOfConcat(rows[..i], [rows[i]]);
  }

  /** One chunk: skipped when its aggregate hash still matches, otherwise compared row by row. */
  method ScanNextChunk(store: Store, h: Hasher, file: string, current: map<int, string>, tampered: seq<TamperedEntry>,
                       tamperedLines: set<int>, covered: set<int>, chunk: LogChunk)
    returns (tampered': seq<TamperedEntry>, tamperedLines': set<int>, covered': set<int>)
    requires store.Valid() && TracksLines(tamperedLines, tampered)
    ensures Scan(tampered', covered') ==
              ScanChunk(h, EntryRows(store.State(), file), current, Scan(tampered, covered), chunk)
    ensures TracksLines(tamperedLines', tampered')
  {
    var stored := store.ListLogEntriesByLineRange(file, chunk.fromLine, chunk.toLine);
    var hash, ok := HashCurrentChunk(h, stored, current, chunk);
    covered' := CoverLines(covered, stored);
    tampered', tamperedLines' := tampered, tamperedLines;
    if !(ok && hash == chunk.hash) {
      var items := CompareStoredEntries(h, stored, current);
      tampered', tamperedLines' := AppendUniqueTampered(tampered, tamperedLines, items);
    }
  }

  method ScanAllChunks(store: Store, h: Hasher, file: string, current: map<int, string>, chunks: seq<LogChunk>)
    returns (tampered: seq<TamperedEntry>, tamperedLines: set<int>, covered: set<int>)
    requires store.Valid()
    ensures Scan(tampered, covered) == ScanChunks(h, EntryRows(store.State(), file), current, chunks)
    ensures TracksLines(tamperedLines, tampered)
  {
    ghost var rows := EntryRows(store.State(), file);
    tampered, tamperedLines, covered := [], {}, {};
    for i := 0 to |chunks|
      invariant Scan(tampered, covered) == ScanChunks(h, rows, current, chunks[..i])
      invariant TracksLines(tamperedLines, tampered)
    {
      assert chunks[..i + 1][..i] == chunks[..i];
      tampered, tamperedLines, covered :=
        ScanNextChunk(store, h, file, current, tampered, tamperedLines, covered, chunks[i]);
    }
    assert chunks[..|chunks|] == chunks;
  }

  /** Rows no chunk covers are compared one by one after the scan. */
  method CompareUncovered(store: Store, h: Hasher, file: string, current: map<int, string>,
                          tampered: seq<TamperedEntry>, tamperedLines: set<int>, covered: set<int>)
    returns (result: seq<TamperedEntry>)
    requires store.Valid() && TracksLines(tamperedLines, tampered)
    ensures var rows := EntryRows(store.State(), file);
            result == if |covered| < |rows|
                      then AppendUnique(tampered, CompareStored(h, Uncovered(rows, covered), current))
                      else tampered
  {
    result := tampered;
    var total := store.CountLogEntries(file);
    if |covered| < total {
      var all := store.ListLogEntries(file, 0, 0);
      var left := UncoveredEntries(all, covered);
      var items := CompareStoredEntries(h, left, current);
      var lines: set<int>;
      result, lines := AppendUniqueTampered(tampered, tamperedLines, items);
    }
  }

  method FindTamperedEntries(store: Store, h: Hasher, file: string, current: map<int, string>)
    returns (tampered: seq<TamperedEntry>)
    requires store.Valid()
    ensures tampered == FindTampered(h, View(store.State(), file).entries, View(store.State(), file).chunks, current)
  {
    FindTamperedIgnoresIds(h, EntryRows(store.State(), file), ChunkRows(store.State(), file), current);
    var chunks := store.ListLogChunks(file, 0, 0);
    if |chunks| == 0 {
      var all := store.ListLogEntries(file, 0, 0);
      tampered := CompareStoredEntries(h, all, current);
      return;
    }
    chunks := Sorting.Sort(chunks, StartsBefore);
    var lines, covered;
    tampered, lines, covered := ScanAllChunks(store, h, file, current, chunks);
    tampered := CompareUncovered(store, h, file, current, tampered, lines, covered);
  }

  /** The history row a check leaves. */
  function ResultRow(f: LogFile, report: CheckReport, readError: string): CheckResult {
    match report
    case SourceReplaced =>
      CheckResult("", f.id, CheckError, 0, 0,
                  "log source " + Text.Quote(f.path) + " changed identity since last collection; " +
                  "run collection again before integrity check")
    case SourceUnreadable => CheckResult("", f.id, CheckError, 0, 0, readError)
    case Compared(status, totalLines, tampered) => CheckResult("", f.id, status, totalLines, |tampered|, "")
  }

  method CompareWithStored(store: Store, h: Hasher, f: LogFile, lines: seq<Line>) returns (report: CheckReport)
    requires store.Valid()
    ensures var fs := View(store.State(), f.id);
            var tampered := FindTampered(h, fs.entries, fs.chunks, ContentByLine(lines));
            report == Compared(if tampered == [] then CheckOk else CheckTampered, |fs.entries|, tampered)
  {
    var total := store.CountLogEntries(f.id);
    var current := IndexByLine(lines);
    var tampered := FindTamperedEntries(store, h, f.id, current);
    report := Compared(if |tampered| > 0 then CheckTampered else CheckOk, total, tampered);
  }

  /** The history row of a report: stored exactly if the log file still is. */
  ghost predicate Recorded(t: Tables, f: LogFile, report: CheckReport, readError: string, t': Tables,
                           r: Outcome<CheckResult>) {
    (r.Success? <==> f.id in t.logFiles) && (r.Failure? ==> t' == t) &&
    (r.Success? ==>
       r.value == ResultRow(f, report, readError).(id := r.value.id) && RowCarries(f, report, readError, r.value) &&
       r.value.id !in t.checks && t'.checks == t.checks[r.value.id := r.value] && t' == PutCheck(t, r.value))
  }

  method RecordReport(store: Store, f: LogFile, report: CheckReport, readError: string)
    returns (r: Outcome<CheckResult>)
    requires store.Valid()
    modifies store
    ensures store.Valid() && Recorded(old(store.State()), f, report, readError, store.State(), r)
  {
    r := store.CreateCheckResult(ResultRow(f, report, readError));
  }

  /** The service's check is the model's check of the log file's rows against the identity in the caller's copy of the
      log file, and its only effect is one new history row that carries the verdict. The copy may be outdated, and the
      log file may have been deleted since; then nothing is recorded. */
  method CheckLogFile(store: Store, h: Hasher, f: LogFile, inspected: Option<FileIdentity>, now: Option<seq<Line>>,
                      readError: string)
    returns (report: CheckReport, r: Outcome<CheckResult>)
    requires store.Valid()
    modifies store
    ensures store.Valid()
    ensures report == Check(h, old(View(store.State(), f.id)).(identity := f.identity), inspected, now)
    ensures Recorded(old(store.State()), f, report, readError, store.State(), r)
    ensures r.Success? ==>
              RowTells(h, old(View(store.State(), f.id)), f, inspected, now, readError, r.value)
  {
    ghost var fs := View(store.State(), f.id);
    ViewAscends(store.State(), f.id);
    if inspected.Some? && ShouldReset(f.identity, inspected.value) {
      report := SourceReplaced;
    } else if now.None? {
      report := SourceUnreadable;
    } else {
      report := CompareWithStored(store, h, f, now.value);
    }
    r := RecordReport(store, f, report, readError);
    if r.Success? {
      CarriedReportTells(h, fs, f, inspected, now, readError, r.value);
    }
  }

  lemma {:induction false} ViewAscends(t: Tables, file: string)
    requires Consistent(t)
    ensures StrictlyAscending(View(t, file).entries)
  {
    EntryRowsFacts(t, file);
    ErasingKeepsOrder(EntryRows(t, file));
  }
}

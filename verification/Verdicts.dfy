/** What a history row of an integrity check tells, in terms of what the check met and the rows it compared. */
module Verdicts {
  import opened Prelude
  import opened Models
  import opened Hashing
  import opened Chunking
  import opened Collector
  import opened StoreFacts
  import opened Integrity
  import opened FastPath
  import opened History
  import opened EndToEnd
  import Text

  /** Nothing could be compared. */
  predicate IsErrorRow(row: CheckResult) {
    row.status == CheckError && row.totalLines == 0 && row.tamperedLines == 0
  }

  /** The message names the source and says what to do. */
  predicate SaysReplaced(message: string, path: string) {
    message == "log source " + Text.Quote(path) + " changed identity since last collection; " +
               "run collection again before integrity check"
  }

  /** The source is not the one that was collected from. */
  predicate Replaced(copy: FileIdentity, inspected: Option<FileIdentity>) {
    inspected.Some? && ShouldReset(copy, inspected.value)
  }

  /** The row differs from the present content, and not only behind chunks whose hash still matches. */
  ghost predicate Caught(h: Hasher, fs: FileStore, current: map<int, string>, e: LogEntry) {
    e in fs.entries && Differs(h, current, e) && !Escapes(h, fs.entries, fs.chunks, current, e)
  }

  ghost function CaughtLines(h: Hasher, fs: FileStore, current: map<int, string>): set<int> {
    set e | e in fs.entries && Caught(h, fs, current, e) :: e.lineNumber
  }

  /** The row of a comparison: all stored rows counted, the caught ones counted, and the verdict "ok" exactly if none
      was caught. */
  ghost predicate TellsComparison(h: Hasher, fs: FileStore, current: map<int, string>, row: CheckResult) {
    row.errorMessage == "" && row.totalLines == |fs.entries| && row.tamperedLines == |CaughtLines(h, fs, current)| &&
    (row.status == CheckOk <==> forall e :: e in fs.entries ==> !Caught(h, fs, current, e)) &&
    (row.status == CheckTampered <==> exists e :: Caught(h, fs, current, e))
  }

  /** The whole row: an error row saying why if the source was replaced or could not be read, and otherwise the row of
      the comparison. */
  ghost predicate RowTells(h: Hasher, fs: FileStore, f: LogFile, inspected: Option<FileIdentity>,
                           now: Option<seq<Line>>, readError: string, row: CheckResult)
  {
    row.logFileId == f.id &&
    if Replaced(f.identity, inspected) then
      IsErrorRow(row) && SaysReplaced(row.errorMessage, f.path)
    else
      match now
      case None => IsErrorRow(row) && row.errorMessage == readError
      case Some(lines) => TellsComparison(h, fs, ContentByLine(lines), row)
  }

  /** The row carries its report. */
  ghost predicate RowCarries(f: LogFile, report: CheckReport, readError: string, row: CheckResult) {
    row.logFileId == f.id &&
    match report
    case SourceReplaced =>
      IsErrorRow(row) && SaysReplaced(row.errorMessage, f.path)
    case SourceUnreadable => IsErrorRow(row) && row.errorMessage == readError
    case Compared(status, totalLines, tampered) =>
      row.status == status && row.totalLines == totalLines && row.tamperedLines == |tampered| && row.errorMessage == ""
  }

  // ---- From the report to the rows ----

  function ReportedLines(tampered: seq<TamperedEntry>): set<int> {
    set i | 0 <= i < |tampered| :: tampered[i].lineNumber
  }

  lemma {:induction false} DistinctLinesCount(tampered: seq<TamperedEntry>)
    requires DistinctLines(tampered)
    ensures |ReportedLines(tampered)| == |tampered|
  {
    if tampered != [] {
      var n := |tampered| - 1;
      DistinctLinesCount(tampered[..n]);
      assert ReportedLines(tampered) == ReportedLines(tampered[..n]) + {tampered[n].lineNumber};
      assert tampered[n].lineNumber !in ReportedLines(tampered[..n]);
    }
  }

  /** The check catches exactly these lines. */
  lemma {:induction false} FoundAreCaught(h: Hasher, fs: FileStore, current: map<int, string>)
    requires StrictlyAscending(fs.entries)
    ensures var found := FindTampered(h, fs.entries, fs.chunks, current);
            |found| == |CaughtLines(h, fs, current)| &&
            (found == [] <==> forall e :: e in fs.entries ==> !Caught(h, fs, current, e))
  {
    var found := FindTampered(h, fs.entries, fs.chunks, current);
    FastPathIsSound(h, fs.entries, fs.chunks, current);
    DistinctLinesCount(found);
    forall n ensures n in ReportedLines(found) <==> n in CaughtLines(h, fs, current) {
      LineFoundIffCaught(h, fs, current, n);
    }
    assert ReportedLines(found) == CaughtLines(h, fs, current);
    assert found != [] ==> found[0].lineNumber in CaughtLines(h, fs, current);
    forall e | e in fs.entries && Caught(h, fs, current, e) ensures e.lineNumber in CaughtLines(h, fs, current) {
    }
  }

  lemma {:induction false} LineFoundIffCaught(h: Hasher, fs: FileStore, current: map<int, string>, n: int)
    requires StrictlyAscending(fs.entries)
    ensures n in ReportedLines(FindTampered(h, fs.entries, fs.chunks, current)) <==>
            n in CaughtLines(h, fs, current)
  {
    var found := FindTampered(h, fs.entries, fs.chunks, current);
    FastPathIsSound(h, fs.entries, fs.chunks, current);
    if n in ReportedLines(found) {
      var i :| 0 <= i < |found| && found[i].lineNumber == n;
      CompareStoredMembers(h, fs.entries, current, found[i]);
      var e :| e in fs.entries && Differs(h, current, e) && found[i] == Report(h, current, e);
      FastPathIsExact(h, fs.entries, fs.chunks, current, e);
    }
    if n in CaughtLines(h, fs, current) {
      var e :| e in fs.entries && Caught(h, fs, current, e) && e.lineNumber == n;
      FastPathIsExact(h, fs.entries, fs.chunks, current, e);
      var i :| 0 <= i < |found| && found[i] == Report(h, current, e);
      assert found[i].lineNumber == n;
    }
  }

  /** A row that carries the report of a check tells what the check met. */
  lemma {:induction false} CarriedReportTells(h: Hasher, fs: FileStore, f: LogFile, inspected: Option<FileIdentity>,
                                              now: Option<seq<Line>>, readError: string, row: CheckResult)
    requires StrictlyAscending(fs.entries)
    requires RowCarries(f, Check(h, fs.(identity := f.identity), inspected, now), readError, row)
    ensures RowTells(h, fs, f, inspected, now, readError, row)
  {
    if now.Some? && !Replaced(f.identity, inspected) {
      FoundAreCaught(h, fs, ContentByLine(now.value));
    }
  }

  // ---- What "ok" is worth ----

  /** On a store that runs produced, and without hash collisions, nothing escapes: the row of a comparison says "ok"
      exactly if no stored row differs from the present content, and "ok" is said in no other way. */
  lemma {:induction false} OkIffNothingDiffers(cfg: Config, fs: FileStore, f: LogFile, inspected: Option<FileIdentity>,
                                               now: Option<seq<Line>>, readError: string, row: CheckResult)
    requires WellGrouped(cfg, fs) && ProducesDigests(cfg.hasher) && StoredDigests(fs.entries)
    requires now.Some? ==> NoAggregateCollisions(cfg.hasher, fs, ContentByLine(now.value))
    requires RowTells(cfg.hasher, fs, f, inspected, now, readError, row)
    ensures row.status == CheckOk <==>
              !Replaced(f.identity, inspected) && now.Some? &&
              forall e :: e in fs.entries ==> !Differs(cfg.hasher, ContentByLine(now.value), e)
  {
    if now.Some? && !Replaced(f.identity, inspected) {
      forall e | e in fs.entries ensures !Escapes(cfg.hasher, fs.entries, fs.chunks, ContentByLine(now.value), e) ||
                                         !Differs(cfg.hasher, ContentByLine(now.value), e) {
        NothingEscapes(cfg, fs, ContentByLine(now.value), e);
      }
    }
  }

  lemma {:induction false} NothingEscapes(cfg: Config, fs: FileStore, current: map<int, string>, e: LogEntry)
    requires WellGrouped(cfg, fs) && ProducesDigests(cfg.hasher) && StoredDigests(fs.entries) && e in fs.entries
    requires NoAggregateCollisions(cfg.hasher, fs, current)
    ensures !Escapes(cfg.hasher, fs.entries, fs.chunks, current, e) || !Differs(cfg.hasher, current, e)
  {
    var groups :| Grouped(cfg, fs, groups);
    CheckEqualsFlatComparison(cfg, fs, current);
    FastPathIsExact(cfg.hasher, fs.entries, fs.chunks, current, e);
    CompareStoredMembers(cfg.hasher, fs.entries, current, Report(cfg.hasher, current, e));
  }
}

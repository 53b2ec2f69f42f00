/** The integrity check after any history of runs reports exactly the collected lines that were changed or removed. */
module EndToEnd {
  import opened Prelude
  import opened Models
  import opened Hashing
  import opened Chunking
  import opened Collector
  import opened StoreFacts
  import opened Integrity
  import opened FastPath
  import opened History

  datatype CheckReport =
    | SourceReplaced
    | SourceUnreadable
    | Compared(status: CheckStatus, totalLines: nat, tampered: seq<TamperedEntry>)

  function Check(h: Hasher, fs: FileStore, inspected: Option<FileIdentity>, now: Option<seq<Line>>): CheckReport {
    if inspected.Some? && ShouldReset(fs.identity, inspected.value) then SourceReplaced
    else match now
      case None => SourceUnreadable
      case Some(lines) =>
        var tampered := FindTampered(h, fs.entries, fs.chunks, ContentByLine(lines));
        Compared(if tampered == [] then CheckOk else CheckTampered, |fs.entries|, tampered)
  }

  /** The line was collected and now reads differently, or is gone. */
  predicate ChangedSinceCollection(m: Monitored, current: map<int, string>, n: int) {
    n in LinesOf(m.fs.entries) && (n !in current || current[n] != Lookup(m.collected, n))
  }

  /** No two of the line contents the check compares, now and at collection, share a hash. */
  ghost predicate NoLineCollisions(h: Hasher, m: Monitored, current: map<int, string>) {
    forall n :: n in LinesOf(m.fs.entries) && n in current && n in m.collected ==>
      (h.line(current[n]) == h.line(m.collected[n]) ==> current[n] == m.collected[n])
  }

  ghost predicate AscendingLines(tampered: seq<TamperedEntry>) {
    forall i, j :: 0 <= i < j < |tampered| ==> tampered[i].lineNumber < tampered[j].lineNumber
  }

  lemma {:induction false} FlatReportAscends(h: Hasher, entries: seq<LogEntry>, current: map<int, string>)
    requires StrictlyAscending(entries)
    ensures AscendingLines(CompareStored(h, entries, current))
  {
    if entries != [] {
      var front, last := entries[..|entries| - 1], entries[|entries| - 1];
      assert front + [last] == entries;
      Batches.StrictlyAscendingParts(front, [last]);
      FlatReportAscends(h, front, current);
      FlatIsSound(h, front, current);
      EarlierLinesAreSmaller(h, front, last, current);
    }
  }

  lemma {:induction false} FlatReportIsExact(h: Hasher, m: Monitored, current: map<int, string>, n: int)
    requires StrictlyAscending(m.fs.entries) && Records(h, m) && NoLineCollisions(h, m, current)
    ensures Reported(CompareStored(h, m.fs.entries, current), n) <==> ChangedSinceCollection(m, current, n)
  {
    var rows := m.fs.entries;
    ComparedLine(h, rows, current, n);
    if n in LinesOf(rows) {
      var i :| 0 <= i < |rows| && rows[i].lineNumber == n;
      assert rows[i] in rows;
      OnlyRowOfLine(h, rows, current, rows[i]);
    } else if e :| e in rows && Differs(h, current, e) && e.lineNumber == n {
      RowOfLine(rows, e);
    }
  }

  /** A report names the hash taken at collection and the line's present hash and content. */
  ghost predicate Evidence(h: Hasher, m: Monitored, current: map<int, string>, t: TamperedEntry) {
    t.storedHash == h.line(Lookup(m.collected, t.lineNumber)) && t.currentContent == Lookup(current, t.lineNumber) &&
    t.currentHash == (if t.lineNumber in current then h.line(t.currentContent) else "")
  }

  lemma {:induction false} FlatReportIsEvidence(h: Hasher, m: Monitored, current: map<int, string>)
    requires StrictlyAscending(m.fs.entries) && Records(h, m)
    ensures forall i :: 0 <= i < |CompareStored(h, m.fs.entries, current)| ==>
              Evidence(h, m, current, CompareStored(h, m.fs.entries, current)[i])
  {
    FlatIsSound(h, m.fs.entries, current);
    var flat := CompareStored(h, m.fs.entries, current);
    forall i | 0 <= i < |flat| ensures Evidence(h, m, current, flat[i]) {
      assert ReportsOn(h, m.fs.entries, current, flat[i]);
    }
  }

  /** The report lists, once each and in order, exactly the collected lines that changed or disappeared, each with its
      evidence, and the verdict is "tampered" exactly when there is one. */
  ghost predicate ReportsExactly(h: Hasher, m: Monitored, current: map<int, string>, report: CheckReport) {
    report.Compared? && report.totalLines == |LinesOf(m.fs.entries)| && AscendingLines(report.tampered) &&
    (forall i :: 0 <= i < |report.tampered| ==> Evidence(h, m, current, report.tampered[i])) &&
    (forall n :: Reported(report.tampered, n) <==> ChangedSinceCollection(m, current, n)) &&
    (report.status == CheckTampered <==> exists n :: ChangedSinceCollection(m, current, n)) &&
    (report.status == CheckOk <==> !exists n :: ChangedSinceCollection(m, current, n))
  }

  /** Main result. After any history of runs, each complete or failed at any batch and each reading anything at all,
      a check that finds its source readable and not replaced reports exactly the collected lines whose content
      changed or disappeared, each once and in order; the verdict is "tampered" exactly when there is such a line. */
  lemma {:induction false} CheckIsExact(cfg: Config, runs: seq<Circumstances>, inspected: Option<FileIdentity>,
                                        now: seq<Line>)
    requires ValidConfig(cfg) && AllSorted(runs) && ProducesDigests(cfg.hasher)
    requires inspected.Some? ==> !ShouldReset(RunAll(cfg, runs).identity, inspected.value)
    requires NoLineCollisions(cfg.hasher, RecordAll(cfg, runs), ContentByLine(now))
    requires NoAggregateCollisions(cfg.hasher, RunAll(cfg, runs), ContentByLine(now))
    ensures var m, current := RecordAll(cfg, runs), ContentByLine(now);
            ReportsExactly(cfg.hasher, m, current, Check(cfg.hasher, RunAll(cfg, runs), inspected, Some(now)))
  {
    var m, current := RecordAll(cfg, runs), ContentByLine(now);
    HistoriesRecord(cfg, runs);
    ReachableStoresAreGrouped(cfg, runs);
    StoredHashesAreDigests(cfg.hasher, m);
    CheckEqualsFlatComparison(cfg, m.fs, current);
    var groups :| Grouped(cfg, m.fs, groups);
    FlatReportAscends(cfg.hasher, m.fs.entries, current);
    FlatReportIsEvidence(cfg.hasher, m, current);
    LinesAreDistinct(m.fs.entries);
    var tampered := FindTampered(cfg.hasher, m.fs.entries, m.fs.chunks, current);
    forall n ensures Reported(tampered, n) <==> ChangedSinceCollection(m, current, n) {
      FlatReportIsExact(cfg.hasher, m, current, n);
    }
    if tampered != [] {
      assert Reported(tampered, tampered[0].lineNumber);
    }
  }

  lemma {:induction false} StoredHashesAreDigests(h: Hasher, m: Monitored)
    requires ProducesDigests(h) && Records(h, m)
    ensures StoredDigests(m.fs.entries)
  {
    forall i | 0 <= i < |m.fs.entries| ensures NewlineFree(m.fs.entries[i].hash) {
      assert m.fs.entries[i] in m.fs.entries;
    }
  }

  /** No false alarms, with no hypothesis about the hash functions: while every collected line still reads as it did,
      whatever was appended since, the verdict is "ok". */
  lemma {:induction false} UnchangedLinesAreOk(cfg: Config, runs: seq<Circumstances>, inspected: Option<FileIdentity>,
                                               now: seq<Line>)
    requires ValidConfig(cfg) && AllSorted(runs)
    requires inspected.Some? ==> !ShouldReset(RunAll(cfg, runs).identity, inspected.value)
    requires forall n :: !ChangedSinceCollection(RecordAll(cfg, runs), ContentByLine(now), n)
    ensures Check(cfg.hasher, RunAll(cfg, runs), inspected, Some(now)) ==
              Compared(CheckOk, |RunAll(cfg, runs).entries|, [])
  {
    var m, current := RecordAll(cfg, runs), ContentByLine(now);
    HistoriesRecord(cfg, runs);
    ReachableStoresAreGrouped(cfg, runs);
    var groups :| Grouped(cfg, m.fs, groups);
    forall i | 0 <= i < |m.fs.entries| ensures !Differs(cfg.hasher, current, m.fs.entries[i]) {
      assert m.fs.entries[i] in m.fs.entries;
      RowOfLine(m.fs.entries, m.fs.entries[i]);
      assert !ChangedSinceCollection(m, current, m.fs.entries[i].lineNumber);
    }
    NothingDiffers(cfg.hasher, m.fs.entries, current);
    var found := FindTampered(cfg.hasher, m.fs.entries, m.fs.chunks, current);
    assert found == [] || found[0] in found;
    FastPathIsSound(cfg.hasher, m.fs.entries, m.fs.chunks, current);
  }
}

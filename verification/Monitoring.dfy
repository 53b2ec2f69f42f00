/** Whole monitoring sessions on the in-memory repository: collect again and again, then check. */
module Monitoring {
  import opened Prelude
  import opened Models
  import opened Hashing
  import opened Chunking
  import opened Collector
  import opened StoreFacts
  import opened Integrity
  import opened History
  import opened EndToEnd
  import opened Tables
  import opened Views
  import opened Storage
  import CollectorService
  import IntegrityService

  /** A log file nothing was collected from yet. */
  ghost predicate Fresh(store: Store, file: string)
    reads store
  {
    store.Valid() && file in store.logFiles && View(store.State(), file) == EMPTY_STORE
  }

  lemma {:induction false} NextRun(cfg: Config, runs: seq<Circumstances>, i: nat)
    requires ValidConfig(cfg) && i < |runs|
    ensures RunAll(cfg, runs[..i + 1]) == Collect(cfg, RunAll(cfg, runs[..i]), runs[i]).fs
  {
    assert runs[..i + 1][..i] == runs[..i] && runs[..i + 1][i] == runs[i];
  }

  /** One scheduled run: load the row, collect. */
  method CollectOnce(store: Store, cfg: Config, c: Circumstances)
    requires store.Valid() && cfg.logFileId in store.logFiles && ValidConfig(cfg) && SortedReads(c)
    modifies store
    ensures store.Valid() && cfg.logFileId in store.logFiles
    ensures View(store.State(), cfg.logFileId) == Collect(cfg, old(View(store.State(), cfg.logFileId)), c).fs
    ensures CollectorService.OthersUntouched(old(store.State()), store.State(), cfg.logFileId)
  {
    FileKnowsItsId(store.State(), cfg.logFileId);
    var got := store.GetLogFileByID(cfg.logFileId);
    var f := got.value;
    var r := CollectorService.CollectLogFile(store, cfg, f, c.inspected, c.read, c.budget);
  }

  lemma {:induction false} FileKnowsItsId(t: Tables, id: string)
    requires Consistent(t) && id in t.logFiles
    ensures t.logFiles[id].id == id
  {
    assert FileListed(t.logFiles, t.logFilesByServer, id);
  }

  /** Any number of runs, each complete or failed anywhere, leaves the repository in the state the history model gives,
      and that state is well formed. */
  method CollectAll(store: Store, cfg: Config, runs: seq<Circumstances>)
    requires Fresh(store, cfg.logFileId) && ValidConfig(cfg) && AllSorted(runs)
    modifies store
    ensures store.Valid() && cfg.logFileId in store.logFiles
    ensures View(store.State(), cfg.logFileId) == RunAll(cfg, runs)
    ensures WellFormed(cfg, View(store.State(), cfg.logFileId))
    ensures CollectorService.OthersUntouched(old(store.State()), store.State(), cfg.logFileId)
  {
    ghost var t := store.State();
    for i := 0 to |runs|
      invariant store.Valid() && cfg.logFileId in store.logFiles
      invariant View(store.State(), cfg.logFileId) == RunAll(cfg, runs[..i])
      invariant CollectorService.OthersUntouched(t, store.State(), cfg.logFileId)
    {
      NextRun(cfg, runs, i);
      ghost var before := store.State();
      CollectOnce(store, cfg, runs[i]);
      CollectorService.OthersUntouchedTwice(t, before, store.State(), cfg.logFileId);
    }
    assert runs[..|runs|] == runs;
    ReachableStoresAreWellFormed(cfg, runs);
  }

  /** The history row carries the verdict and its counts. */
  ghost predicate RecordsReport(store: Store, file: string, report: CheckReport, row: CheckResult)
    requires report.Compared?
    reads store
  {
    row.id in store.checks && store.checks[row.id] == row && row.logFileId == file && row.status == report.status &&
    row.totalLines == report.totalLines && row.tamperedLines == |report.tampered| && row.errorMessage == ""
  }

  method CheckOnce(store: Store, cfg: Config, inspected: Option<FileIdentity>, now: seq<Line>)
    returns (report: CheckReport, row: CheckResult)
    requires store.Valid() && cfg.logFileId in store.logFiles
    modifies store
    ensures store.Valid()
    ensures report == Check(cfg.hasher, old(View(store.State(), cfg.logFileId)), inspected, Some(now))
    ensures report.Compared? ==> RecordsReport(store, cfg.logFileId, report, row)
  {
    FileKnowsItsId(store.State(), cfg.logFileId);
    var got := store.GetLogFileByID(cfg.logFileId);
    var f := got.value;
    ghost var fs := View(store.State(), f.id);
    assert fs.(identity := f.identity) == fs;
    var r;
    report, r := IntegrityService.CheckLogFile(store, cfg.hasher, f, inspected, Some(now), "");
    row := r.value;
  }

  /** The end-to-end guarantee, on the repository itself: collect any number of times, then check a readable source that
      was not replaced. The report is exact, and one history row records it. */
  method CollectAllThenCheck(store: Store, cfg: Config, runs: seq<Circumstances>, inspected: Option<FileIdentity>,
                             now: seq<Line>)
    returns (report: CheckReport, row: CheckResult)
    requires Fresh(store, cfg.logFileId) && ValidConfig(cfg) && AllSorted(runs) && ProducesDigests(cfg.hasher)
    requires inspected.Some? ==> !ShouldReset(RunAll(cfg, runs).identity, inspected.value)
    requires NoLineCollisions(cfg.hasher, RecordAll(cfg, runs), ContentByLine(now))
    requires NoAggregateCollisions(cfg.hasher, RunAll(cfg, runs), ContentByLine(now))
    modifies store
    ensures store.Valid()
    ensures ReportsExactly(cfg.hasher, RecordAll(cfg, runs), ContentByLine(now), report)
    ensures RecordsReport(store, cfg.logFileId, report, row)
  {
    CollectAll(store, cfg, runs);
    report, row := CheckOnce(store, cfg, inspected, now);
    assert ReportsExactly(cfg.hasher, RecordAll(cfg, runs), ContentByLine(now), report) by {
      CheckIsExact(cfg, runs, inspected, now);
    }
  }
}

/** Whole histories of collection runs and the integrity check that follows them. */
module History {
  import opened Prelude
  import opened Models
  import opened Hashing
  import opened Chunking
  import opened Batches
  import opened Collector
  import opened StoreFacts
  import opened Integrity
  import opened FastPath
  import Sorting

  // ---- Every reachable store is well formed ----

  /** The store after a list of runs, the first one starting from the empty store. Each run meets its own
      circumstances, so appends, edits, truncations and rotations between runs are all included. */
  ghost function RunAll(cfg: Config, runs: seq<Circumstances>): FileStore
    requires ValidConfig(cfg)
  {
    if runs == [] then EMPTY_STORE else Collect(cfg, RunAll(cfg, runs[..|runs| - 1]), runs[|runs| - 1]).fs
  }

  ghost predicate AllSorted(runs: seq<Circumstances>) {
    forall i :: 0 <= i < |runs| ==> SortedReads(runs[i])
  }

  lemma {:induction false} ReachableStoresAreGrouped(cfg: Config, runs: seq<Circumstances>)
    requires ValidConfig(cfg) && AllSorted(runs)
    ensures WellGrouped(cfg, RunAll(cfg, runs))
  {
    if runs == [] {
      EmptyStoreIsWellGrouped(cfg, NO_IDENTITY);
    } else {
      ReachableStoresAreGrouped(cfg, runs[..|runs| - 1]);
      CollectKeepsGroups(cfg, RunAll(cfg, runs[..|runs| - 1]), runs[|runs| - 1]);
    }
  }

  lemma {:induction false} ReachableStoresAreWellFormed(cfg: Config, runs: seq<Circumstances>)
    requires ValidConfig(cfg) && AllSorted(runs)
    ensures WellFormed(cfg, RunAll(cfg, runs))
  {
    ReachableStoresAreGrouped(cfg, runs);
    GroupedIsWellFormed(cfg, RunAll(cfg, runs));
  }

  // ---- The check on a well-formed store ----

  lemma {:induction false} AppendUniqueFresh(target: seq<TamperedEntry>, items: seq<TamperedEntry>)
    requires DistinctLines(target + items)
    ensures AppendUnique(target, items) == target + items
  {
    if items != [] {
      var front, item := items[..|items| - 1], items[|items| - 1];
      assert target + items == (target + front) + [item];
      assert DistinctLines(target + front) by {
        forall i, j | 0 <= i < j < |target + front|
          ensures (target + front)[i].lineNumber != (target + front)[j].lineNumber
        {
          assert (target + items)[i].lineNumber != (target + items)[j].lineNumber;
        }
      }
      AppendUniqueFresh(target, front);
      assert (target + items)[|target + front|] == item;
      forall i | 0 <= i < |target + front| ensures (target + front)[i].lineNumber != item.lineNumber {
        assert (target + items)[i].lineNumber != (target + items)[|target + front|].lineNumber;
      }
    }
  }

  lemma {:induction false} NothingDiffers(h: Hasher, rows: seq<LogEntry>, current: map<int, string>)
    requires forall i :: 0 <= i < |rows| ==> !Differs(h, current, rows[i])
    ensures CompareStored(h, rows, current) == []
  {
    if rows != [] {
      NothingDiffers(h, rows[..|rows| - 1], current);
    }
  }

  /** The scan of rows that were all compared one by one. */
  function ScanOf(h: Hasher, rows: seq<LogEntry>, current: map<int, string>): Scan {
    Scan(CompareStored(h, rows, current), LinesOf(rows))
  }

  lemma {:induction false} ScanGroup(h: Hasher, entries: seq<LogEntry>, current: map<int, string>,
                                     before: seq<LogEntry>, c: LogChunk)
    requires ProducesDigests(h) && StoredDigests(entries)
    requires MatchesRows(h, entries, c) && NoAggregateCollision(h, entries, current, c)
    requires StrictlyAscending(before + InRange(entries, c.fromLine, c.toLine))
    ensures var all := before + InRange(entries, c.fromLine, c.toLine);
            ScanChunk(h, entries, current, ScanOf(h, before, current), c) == ScanOf(h, all, current)
  {
    var rows := InRange(entries, c.fromLine, c.toLine);
    LinesOfConcat(before, rows);
    CompareStoredConcat(h, before, rows, current);
    if Skips(h, entries, current, c) {
      forall i | 0 <= i < |rows| ensures !Differs(h, current, rows[i]) {
        SkippedRowsAreUnchanged(h, entries, current, c, rows[i]);
      }
      NothingDiffers(h, rows, current);
    } else {
      FlatIsSound(h, before + rows, current);
      AppendUniqueFresh(CompareStored(h, before, current), CompareStored(h, rows, current));
    }
  }

  lemma {:induction false} LinesOfConcat(a: seq<LogEntry>, b: seq<LogEntry>)
    ensures LinesOf(a + b) == LinesOf(a) + LinesOf(b)
  {
    forall n | n in LinesOf(a) + LinesOf(b) ensures n in LinesOf(a + b) {
      if n in LinesOf(a) {
        var i :| 0 <= i < |a| && a[i].lineNumber == n;
        assert (a + b)[i].lineNumber == n;
      } else {
        var i :| 0 <= i < |b| && b[i].lineNumber == n;
        assert (a + b)[|a| + i].lineNumber == n;
      }
    }
  }

  ghost predicate NoAggregateCollisions(h: Hasher, fs: FileStore, current: map<int, string>) {
    forall i :: 0 <= i < |fs.chunks| ==> NoAggregateCollision(h, fs.entries, current, fs.chunks[i])
  }

  lemma {:induction false} ScanOfNextGroup(cfg: Config, fs: FileStore, groups: seq<seq<LogEntry>>,
                                           current: map<int, string>, k: nat)
    requires Grouped(cfg, fs, groups) && k < |fs.chunks|
    requires ProducesDigests(cfg.hasher) && StoredDigests(fs.entries)
    requires NoAggregateCollisions(cfg.hasher, fs, current)
    ensures ScanChunk(cfg.hasher, fs.entries, current, ScanOf(cfg.hasher, Concat(groups[..k]), current),
                      fs.chunks[k]) ==
              ScanOf(cfg.hasher, Concat(groups[..k + 1]), current)
  {
    var _ := GroupedChunk(cfg, fs, groups, k);
    assert Concat(groups[..k + 1]) == Concat(groups[..k]) + groups[k] by {
      assert groups[..k + 1] == groups[..k] + [groups[k]];
      ConcatSnoc(groups[..k], groups[k]);
    }
    assert StrictlyAscending(Concat(groups[..k + 1])) by {
      assert groups[0..k + 1] == groups[..k + 1];
      SliceOfGroups(fs.entries, groups, 0, k + 1);
    }
    ScanGroup(cfg.hasher, fs.entries, current, Concat(groups[..k]), fs.chunks[k]);
  }

  lemma {:induction false} ScanChunksSnoc(h: Hasher, entries: seq<LogEntry>, current: map<int, string>,
                                          chunks: seq<LogChunk>, k: nat)
    requires k < |chunks|
    ensures ScanChunks(h, entries, current, chunks[..k + 1]) ==
              ScanChunk(h, entries, current, ScanChunks(h, entries, current, chunks[..k]), chunks[k])
  {
    assert chunks[..k + 1][..k] == chunks[..k] && chunks[..k + 1][k] == chunks[k];
  }

  lemma {:induction false} ScanOfNoGroups(h: Hasher, entries: seq<LogEntry>, current: map<int, string>)
    ensures ScanChunks(h, entries, current, []) == ScanOf(h, Concat<LogEntry>([]), current)
  {
  }

  lemma {:induction false} ScanOfGroups(cfg: Config, fs: FileStore, groups: seq<seq<LogEntry>>,
                                        current: map<int, string>, k: nat)
    requires Grouped(cfg, fs, groups) && k <= |fs.chunks|
    requires ProducesDigests(cfg.hasher) && StoredDigests(fs.entries)
    requires NoAggregateCollisions(cfg.hasher, fs, current)
    ensures ScanChunks(cfg.hasher, fs.entries, current, fs.chunks[..k]) ==
              ScanOf(cfg.hasher, Concat(groups[..k]), current)
  {
    if k == 0 {
      ScanOfNoGroups(cfg.hasher, fs.entries, current);
      assert fs.chunks[..0] == [] && groups[..0] == [];
    } else {
      ScanOfGroups(cfg, fs, groups, current, k - 1);
      ScanOfNextGroup(cfg, fs, groups, current, k - 1);
      ScanChunksSnoc(cfg.hasher, fs.entries, current, fs.chunks, k - 1);
    }
  }

  lemma {:induction false} GroupedChunksAreSorted(cfg: Config, fs: FileStore, groups: seq<seq<LogEntry>>)
    requires Grouped(cfg, fs, groups)
    ensures Sorting.Sort(fs.chunks, StartsBefore) == fs.chunks
  {
    forall i, j | 0 <= i < j < |fs.chunks| ensures Sorting.InOrder(fs.chunks, StartsBefore, i, j) {
      GroupedRangesOrdered(cfg, fs, groups, i, j);
      var _ := GroupedChunk(cfg, fs, groups, i);
    }
    Sorting.SortedIsFixed(fs.chunks, StartsBefore);
  }

  lemma {:induction false} WholeScan(cfg: Config, fs: FileStore, groups: seq<seq<LogEntry>>, current: map<int, string>)
    requires Grouped(cfg, fs, groups) && ProducesDigests(cfg.hasher) && StoredDigests(fs.entries)
    requires NoAggregateCollisions(cfg.hasher, fs, current)
    ensures ScanChunks(cfg.hasher, fs.entries, current, Sorting.Sort(fs.chunks, StartsBefore)) ==
            ScanOf(cfg.hasher, fs.entries, current)
  {
    GroupedChunksAreSorted(cfg, fs, groups);
    ScanOfGroups(cfg, fs, groups, current, |fs.chunks|);
    assert fs.chunks[..|fs.chunks|] == fs.chunks && groups[..|groups|] == groups;
  }

  lemma {:induction false} WholeScanIsResult(h: Hasher, entries: seq<LogEntry>, chunks: seq<LogChunk>,
                                             current: map<int, string>)
    requires StrictlyAscending(entries)
    requires ScanChunks(h, entries, current, Sorting.Sort(chunks, StartsBefore)) == ScanOf(h, entries, current)
    ensures FindTampered(h, entries, chunks, current) == CompareStored(h, entries, current)
  {
    LinesAreDistinct(entries);
  }

  /** On a store the collector produced, the fast path reports the flat comparison's list itself, order included. */
  lemma {:induction false} CheckEqualsFlatComparison(cfg: Config, fs: FileStore, current: map<int, string>)
    requires WellGrouped(cfg, fs) && ProducesDigests(cfg.hasher) && StoredDigests(fs.entries)
    requires NoAggregateCollisions(cfg.hasher, fs, current)
    ensures FindTampered(cfg.hasher, fs.entries, fs.chunks, current) == CompareStored(cfg.hasher, fs.entries, current)
  {
    var groups :| Grouped(cfg, fs, groups);
    WholeScan(cfg, fs, groups, current);
    WholeScanIsResult(cfg.hasher, fs.entries, fs.chunks, current);
  }

  // ---- What was collected ----

  /** A store together with the history variable `collected`: the content each stored line had when it was read. */
  datatype Monitored = Monitored(fs: FileStore, collected: map<int, string>)

  function Lookup(m: map<int, string>, n: int): string {
    if n in m then m[n] else ""
  }

  ghost function RunAndRecord(cfg: Config, m: Monitored, c: Circumstances): Monitored
    requires ValidConfig(cfg)
  {
    var fs := Collect(cfg, m.fs, c).fs;
    match c.read(StartLine(m.fs, c))
    case None => Monitored(fs, m.collected)
    case Some(lines) =>
      var kept := LinesOf(BaseStore(m.fs, c).entries);
      Monitored(fs, map n | n in LinesOf(fs.entries) ::
                  if n in kept then Lookup(m.collected, n) else Lookup(ContentByLine(lines), n))
  }

  ghost function RecordAll(cfg: Config, runs: seq<Circumstances>): Monitored
    requires ValidConfig(cfg)
  {
    if runs == [] then Monitored(EMPTY_STORE, map[])
    else RunAndRecord(cfg, RecordAll(cfg, runs[..|runs| - 1]), runs[|runs| - 1])
  }

  /** Every stored hash is the hash of the recorded content. */
  ghost predicate Records(h: Hasher, m: Monitored) {
    forall e :: e in m.fs.entries ==> e.lineNumber in m.collected && e.hash == h.line(m.collected[e.lineNumber])
  }

  /** Every stored row is the row of the line it was collected from, so it has the recorded content exactly if raw
      content is to be stored, and none otherwise. */
  ghost predicate RowsTell(cfg: Config, m: Monitored) {
    forall e :: e in m.fs.entries ==> e.lineNumber in m.collected && TellsLine(cfg, e, m.collected[e.lineNumber])
  }

  ghost predicate TellsLine(cfg: Config, e: LogEntry, content: string) {
    IsRowOfLine(cfg, e, Line(e.lineNumber, content))
  }

  /** All rows of one line number. */
  ghost predicate OnlyOneOf(added: seq<LogEntry>, e: LogEntry) {
    e in added && forall e' :: e' in added && e'.lineNumber == e.lineNumber ==> e' == e
  }

  lemma {:induction false} RowsOfMembers(added: seq<LogEntry>, chunks: seq<LogChunk>, e: LogEntry)
    requires e in RowsOf(added, chunks)
    ensures e in added
  {
    var last := chunks[|chunks| - 1];
    InRangeMembers(added, last.fromLine, last.toLine, e);
    if e !in InRange(added, last.fromLine, last.toLine) {
      RowsOfMembers(added, chunks[..|chunks| - 1], e);
    }
  }

  lemma {:induction false} RowsOfWholeLines(added: seq<LogEntry>, chunks: seq<LogChunk>, e: LogEntry, e': LogEntry)
    requires e in RowsOf(added, chunks) && e' in added && e'.lineNumber == e.lineNumber
    ensures e' in RowsOf(added, chunks)
  {
    var last := chunks[|chunks| - 1];
    InRangeMembers(added, last.fromLine, last.toLine, e);
    InRangeMembers(added, last.fromLine, last.toLine, e');
    if e !in InRange(added, last.fromLine, last.toLine) {
      RowsOfWholeLines(added, chunks[..|chunks| - 1], e, e');
    }
  }

  /** A saved row is an old row, or a new row whose line number was read once. */
  lemma {:induction false} SavedRows(fs: FileStore, added: seq<LogEntry>, batches: seq<Batch>, budget: nat, e: LogEntry)
    requires AllCarryOwnRows(added, batches) && e in SaveAll(fs, batches, budget).fs.entries
    ensures e in fs.entries || OnlyOneOf(added, e)
    decreases |batches|
  {
    if batches != [] && budget > 0 && SaveBatch(fs, batches[0]).Some? {
      var b := batches[0];
      assert AllCarryOwnRows(added, batches[1..]);
      SavedRows(SaveBatch(fs, b).value, added, batches[1..], budget - 1, e);
      if e in b.entries {
        assert CarriesOwnRows(added, b);
        StrictlyAscendingParts(fs.entries, b.entries);
        RowsOfMembers(added, b.chunks, e);
        forall e' | e' in added && e'.lineNumber == e.lineNumber ensures e' == e {
          RowsOfWholeLines(added, b.chunks, e, e');
          UniqueRow(b.entries, e, e');
        }
      }
    }
  }

  lemma {:induction false} NewEntriesMembers(cfg: Config, lines: seq<Line>, start: int, e: LogEntry)
    ensures e in NewEntries(cfg, lines, start) <==>
              exists l :: l in lines && l.number > start && e == EntryFor(cfg, l)
  {
    if lines != [] {
      var front, last := lines[..|lines| - 1], lines[|lines| - 1];
      assert lines == front + [last];
      NewEntriesMembers(cfg, front, start, e);
      if l :| l in lines && l.number > start && e == EntryFor(cfg, l) {
        assert l in front || l == last;
      }
    }
  }

  lemma {:induction false} LatestContent(lines: seq<Line>, l: Line) returns (l': Line)
    requires l in lines
    ensures l.number in ContentByLine(lines)
    ensures l' in lines && l'.number == l.number && l'.content == ContentByLine(lines)[l.number]
  {
    var front, last := lines[..|lines| - 1], lines[|lines| - 1];
    assert lines == front + [last];
    if l.number == last.number {
      l' := last;
    } else {
      l' := LatestContent(front, l);
    }
  }

  lemma {:induction false} BatchesCarryOwnRows(cfg: Config, added: seq<LogEntry>, next: int)
    requires ValidConfig(cfg)
    ensures AllCarryOwnRows(added, BatchesFor(cfg, added, next))
  {
    if added != [] {
      SplitPartitions(added, cfg.options.chunkSize);
      PackRows(added, ChunksOf(cfg, Split(added, cfg.options.chunkSize), next), cfg.options.batchSize);
    }
  }

  lemma {:induction false} NewRowIsRecorded(cfg: Config, lines: seq<Line>, start: int, e: LogEntry)
    requires OnlyOneOf(NewEntries(cfg, lines, start), e)
    ensures e.lineNumber in ContentByLine(lines)
    ensures TellsLine(cfg, e, ContentByLine(lines)[e.lineNumber])
  {
    NewEntriesMembers(cfg, lines, start, e);
    var l :| l in lines && l.number > start && e == EntryFor(cfg, l);
    var l' := LatestContent(lines, l);
    NewEntriesMembers(cfg, lines, start, EntryFor(cfg, l'));
  }

  lemma {:induction false} RowOfLine(rows: seq<LogEntry>, e: LogEntry)
    requires e in rows
    ensures e.lineNumber in LinesOf(rows)
  {
    var i :| 0 <= i < |rows| && rows[i] == e;
  }

  /** Rows of a run's result, seen from the store it built on. */
  lemma {:induction false} CollectedRow(cfg: Config, fs: FileStore, c: Circumstances, e: LogEntry)
    requires ValidConfig(cfg) && c.read(StartLine(fs, c)).Some? && e in Collect(cfg, fs, c).fs.entries
    ensures e in BaseStore(fs, c).entries ||
            OnlyOneOf(NewEntries(cfg, c.read(StartLine(fs, c)).value, StartLine(fs, c)), e)
  {
    var base := BaseStore(fs, c);
    var added := NewEntries(cfg, c.read(StartLine(fs, c)).value, StartLine(fs, c));
    var next := NextChunkNumber(base.chunks);
    BatchesCarryOwnRows(cfg, added, next);
    SavedRows(base, added, BatchesFor(cfg, added, next), c.budget, e);
  }

  lemma {:induction false} BaseLineAboveNew(cfg: Config, fs: FileStore, c: Circumstances, e: LogEntry, b: LogEntry)
    requires ValidConfig(cfg) && WellGrouped(cfg, Collect(cfg, fs, c).fs) && c.read(StartLine(fs, c)).Some?
    requires e in Collect(cfg, fs, c).fs.entries && b in BaseStore(fs, c).entries && b.lineNumber == e.lineNumber
    ensures e == b
  {
    var base := BaseStore(fs, c);
    var added := NewEntries(cfg, c.read(StartLine(fs, c)).value, StartLine(fs, c));
    SaveAllExtends(base, BatchesFor(cfg, added, NextChunkNumber(base.chunks)), c.budget);
    var after := Collect(cfg, fs, c).fs;
    var groups :| Grouped(cfg, after, groups);
    var i :| 0 <= i < |base.entries| && base.entries[i] == b;
    assert after.entries[i] == b;
    UniqueRow(after.entries, e, b);
  }

  lemma {:induction false} SaveAllExtends(fs: FileStore, batches: seq<Batch>, budget: nat)
    ensures fs.entries <= SaveAll(fs, batches, budget).fs.entries
    decreases |batches|
  {
    if batches != [] && budget > 0 && SaveBatch(fs, batches[0]).Some? {
      SaveAllExtends(SaveBatch(fs, batches[0]).value, batches[1..], budget - 1);
    }
  }

  lemma {:induction false} RunKeepsRecords(cfg: Config, m: Monitored, c: Circumstances)
    requires ValidConfig(cfg) && SortedReads(c) && WellGrouped(cfg, m.fs) && RowsTell(cfg, m)
    ensures RowsTell(cfg, RunAndRecord(cfg, m, c))
  {
    var m' := RunAndRecord(cfg, m, c);
    var start := StartLine(m.fs, c);
    if c.read(start).Some? {
      CollectKeepsGroups(cfg, m.fs, c);
      var kept := BaseStore(m.fs, c).entries;
      forall e | e in m'.fs.entries
        ensures e.lineNumber in m'.collected && TellsLine(cfg, e, m'.collected[e.lineNumber])
      {
        RowOfLine(m'.fs.entries, e);
        if e.lineNumber in LinesOf(kept) {
          var i :| 0 <= i < |kept| && kept[i].lineNumber == e.lineNumber;
          BaseLineAboveNew(cfg, m.fs, c, e, kept[i]);
        } else {
          CollectedRow(cfg, m.fs, c, e);
          if e in kept {
            RowOfLine(kept, e);
          }
          NewRowIsRecorded(cfg, c.read(start).value, start, e);
        }
      }
    }
  }

  /** After any history every stored row has the hash of the content it was collected with, that content itself if raw
      content is stored, and no content otherwise. */
  lemma {:induction false} HistoriesRecord(cfg: Config, runs: seq<Circumstances>)
    requires ValidConfig(cfg) && AllSorted(runs)
    ensures RecordAll(cfg, runs).fs == RunAll(cfg, runs) && Records(cfg.hasher, RecordAll(cfg, runs))
    ensures RowsTell(cfg, RecordAll(cfg, runs))
  {
    if runs != [] {
      var front := runs[..|runs| - 1];
      HistoriesRecord(cfg, front);
      ReachableStoresAreGrouped(cfg, front);
      RunKeepsRecords(cfg, RecordAll(cfg, front), runs[|runs| - 1]);
    }
  }

  /** Run `k` of the history read this line beyond what was stored before it. */
  ghost predicate ReadInRun(cfg: Config, runs: seq<Circumstances>, k: nat, line: Line)
    requires ValidConfig(cfg)
  {
    k < |runs| &&
    var start := StartLine(RunAll(cfg, runs[..k]), runs[k]);
    runs[k].read(start).Some? && line in runs[k].read(start).value && line.number > start
  }

  /** Whatever a history stores was read: each row is the row of a line one of its runs read, with no content at all if
      raw content is not to be stored, and otherwise exactly the content of that line. */
  lemma {:induction false} StoredRowsWereRead(cfg: Config, runs: seq<Circumstances>, e: LogEntry)
    returns (k: nat, line: Line)
    requires ValidConfig(cfg) && e in RunAll(cfg, runs).entries
    ensures ReadInRun(cfg, runs, k, line) && e.lineNumber == line.number && e.logFileId == cfg.logFileId
    ensures e.content == (if cfg.options.storeRawContent then line.content else "")
    ensures e.hash == cfg.hasher.line(line.content)
    decreases |runs|
  {
    var n := |runs| - 1;
    var fs, c := RunAll(cfg, runs[..n]), runs[n];
    var start := StartLine(fs, c);
    if c.read(start).Some? {
      CollectedRow(cfg, fs, c, e);
    }
    if e in fs.entries {
      k, line := StoredRowsWereRead(cfg, runs[..n], e);
      assert runs[..n][..k] == runs[..k];
    } else {
      NewEntriesMembers(cfg, c.read(start).value, start, e);
      k := n;
      line :| line in c.read(start).value && line.number > start && e == EntryFor(cfg, line);
    }
  }
}
